# cicero-datatype-generator, modelled in Dafny

`extractDataTypes.py` reads a Cicero contract template. It finds every
`{{identifier}}` placeholder in the text and guesses a Concerto type for each
identifier from keywords in its name. Then it prints a list of Concerto field
declarations, headed by the import lines those types need. This project
models the three steps, and proves what each one computes:

- **type inference** (`matchDataType`). Module `TypeInference` models it as a
  fold over a constant table of nine keyword rules. The rules are applied in
  source order to the lower-cased name, and each rule that fires overwrites the
  type. The Duration and PostalAddress rules also overwrite a separate import
  accumulator.
  - The lemmas prove that the last firing rule decides the type.
  - They prove that String with no import is the result exactly when no keyword
    occurs in the name.
  - They prove the import rule, and that the result does not depend on letter
    case.
  - Module `InferenceExamples` works through named identifiers, for instance
    `isInsured` and `partyDay`.
- **placeholder extraction** (`extractContractDataTypes`).
  - Module `Scanner` replaces `re.finditer` over `{{(\w+)}}` with an explicit
    scanner. The scanner is proved equal to an independent description of
    leftmost, non-overlapping matching.
  - Module `OrderedMaps` models the Python dict: assigning a key keeps the
    key's first insertion position.
  - Module `Extraction` holds the extraction loop. It is a method whose loop
    invariant ties the dict and the import list to the identifiers scanned so
    far.
- **formatting** (`formatContractDataTypes`). Module `Formatting` holds it: a
  method with the source's two loops, proved equal to a line-printing function.
  Reading the output back line by line gives:
  - the imports;
  - a blank line;
  - `  o <Type> <name>` for each term, in dict order.

  `PipelineLines` composes the extraction contract with the formatter.

Strings are `seq<char>`. Word characters and lower-casing are ASCII (see
Left out). Module `Wrappers` holds an `Option` type.

## Model

| member | source | states |
|---|---|---|
| TypeInference.TypeName.Name | extractDataTypes.py:60-112 | each of the ten type names the inferencer can return is a non-empty word |
| TypeInference.MatchDataType | extractDataTypes.py:59-115 | definition: the rule table folded over the lower-cased name from (String, ''); what it returns is stated by TypePrecedence, ImportRule and DefaultIffNoKeyword |
| TypeInference.Step | extractDataTypes.py:67-112 | definition: one `if` of the overwrite sequence; a firing rule sets the type and, when it has one, the import; otherwise nothing changes |
| TypeInference.Apply | extractDataTypes.py:67-112 | definition: the `if`s in source order, each seeing the previous one's result; its meaning is stated by the Apply lemmas below |
| TypeInference.Hits | extractDataTypes.py:68 | the filtered list holds exactly the keywords that are substrings of the name, and is no longer than the keyword list |
| TypeInference.Fires | extractDataTypes.py:68-69 | definition: the `len(...) > 0` test; FiresIffMentions states it as "some keyword is a substring" |
| TypeInference.FiresIffMentions | extractDataTypes.py:67-69 | the list-comprehension filter is non-empty exactly when some keyword of the list is a substring of the name |
| TypeInference.ApplyNoneFires | extractDataTypes.py:60-115 | when no rule fires, the fold returns its initial type and import unchanged |
| TypeInference.ApplyLastTypeWins | extractDataTypes.py:67-111 | the fold's type is the result of the last rule that fires |
| TypeInference.ApplyImportKept | extractDataTypes.py:97-112 | the import is left unchanged when no firing rule writes one |
| TypeInference.ApplyLastImportWins | extractDataTypes.py:97-112 | the import is the one written by the last firing rule that writes an import |
| TypeInference.ApplyTypeIsLastFiring | extractDataTypes.py:60-115 | the fold agrees with the independent reference `LastFiring`: the type of the highest-numbered firing rule, else the initial type |
| TypeInference.LastFiring | extractDataTypes.py:67-111 | the reference index: a rule that fires, with no rule after it firing, or -1 when none fires |
| TypeInference.TypePrecedence | extractDataTypes.py:59-115 | `matchDataType(name)` has the type of the highest-numbered rule with a keyword in `lower(name)`, and String when there is none |
| TypeInference.LastMatchingRuleWins | extractDataTypes.py:67-111 | if rule i has a keyword in the lower-cased name and no later rule does, the type is rule i's |
| TypeInference.DefaultIffNoKeyword | extractDataTypes.py:60-61 | type String with import '' holds if and only if no keyword of any rule occurs, and so does type String alone |
| TypeInference.ImportRule | extractDataTypes.py:61-112 | the import is the address import iff an address keyword occurs; otherwise the time import iff a duration keyword occurs; otherwise '' (so it is unaffected by the later Party rule) |
| TypeInference.ImportValues | extractDataTypes.py:97-112 | the import is '', the time import or the address import |
| TypeInference.ValueIsNeverCurrency | extractDataTypes.py:82-90 | a name containing "value" is never typed Currency, because the later MonetaryAmount rule also lists "value" |
| TypeInference.DependsOnlyOnLower | extractDataTypes.py:63 | two names equal after lower-casing get the same type and import |
| TypeInference.CaseInsensitive | extractDataTypes.py:63 | lower-casing a name before inference changes nothing |
| InferenceExamples.NoRuleAfterMonetary | extractDataTypes.py:92-112 | a name lacking the letters d, i, h, s, w, q, p, b matches none of the DateTime, Duration, AccordParty and PostalAddress keywords |
| InferenceExamples.MonetaryWins | extractDataTypes.py:87-112 | such a name with a MonetaryAmount keyword gives (MonetaryAmount, '') |
| InferenceExamples.PartyWins | extractDataTypes.py:103-112 | a name with a party keyword and no address keyword gives AccordParty, keeping whatever import the Duration rule set |
| InferenceExamples.ContractValueIsMonetaryAmount | extractDataTypes.py:82-90 | `contractValue` gives (MonetaryAmount, ''), not Currency |
| InferenceExamples.TotalAmountIsMonetaryAmount | extractDataTypes.py:87-90 | `totalAmount` gives (MonetaryAmount, '') |
| InferenceExamples.IsInsuredIsAccordParty | extractDataTypes.py:67-106 | `isInsured` gives (AccordParty, ''): "is" is a Boolean keyword, but the later Party rule matches "insured" |
| InferenceExamples.BuyerNameIsAccordParty | extractDataTypes.py:103-106 | `buyerName` gives (AccordParty, '') |
| InferenceExamples.PartyDayKeepsTimeImport | extractDataTypes.py:97-106 | `partyDay` gives AccordParty with the time import: the Duration rule's import survives the later Party rule |
| InferenceExamples.PaymentDurationIsDuration | extractDataTypes.py:97-101 | `paymentDuration` gives (Duration, time import): "party" is not a substring of it |
| Text.LowerChar | extractDataTypes.py:63 | ASCII lower-casing maps 'A'..'Z' to 'a'..'z' and leaves every other character alone |
| Text.Lower | extractDataTypes.py:63 | `lower()` keeps the length and lower-cases each character in place |
| Text.LowerIdempotent | extractDataTypes.py:63 | lower-casing twice is lower-casing once |
| Text.NotContainedByChar | extractDataTypes.py:68 | a keyword with a character that the name lacks is not a substring of the name |
| Text.CountNewlines | extractDataTypes.py:126-131 | the newline count is zero exactly when the text has no newline |
| Text.CountNewlinesAppend | extractDataTypes.py:126-131 | newline counts add up over concatenation |
| Scanner.IsMatch | extractDataTypes.py:44 | definition: `{{`, a non-empty run of word characters, then `}}`, spanning start..end; MatchAtIff ties the matcher to it |
| Scanner.Placeholders | extractDataTypes.py:45-50 | definition: the keys of the scan from position 0; PlaceholdersAreWords and NoPlaceholdersIff state what they are |
| Scanner.WordRunEnd | extractDataTypes.py:44 | `\w+` is greedy: the run from j consists of word characters and stops at a non-word character or at the end |
| Scanner.MatchAt | extractDataTypes.py:44 | a match found at i is `{{`, a non-empty word, then `}}` |
| Scanner.MatchAtIff | extractDataTypes.py:44 | the matcher at i succeeds with end e if and only if `{{word}}` spans exactly i..e |
| Scanner.NoMatchAt | extractDataTypes.py:44-45 | when the matcher fails at i, no match of the pattern starts at i |
| Scanner.ScanFrom | extractDataTypes.py:45-46 | the scan yields matches, none before the start, each beginning after the previous one ends |
| Scanner.ScanIsLeftmost | extractDataTypes.py:45-46 | the scan meets the finditer description: leftmost match first, nothing skipped, resuming after each match, and no match left at the end |
| Scanner.LeftmostUnique | extractDataTypes.py:45-46 | the finditer description determines the match sequence uniquely |
| Scanner.ScanCharacterization | extractDataTypes.py:45-46 | a span sequence meets the finditer description if and only if it is the scan |
| Scanner.Key | extractDataTypes.py:50 | the slice `group()[2:len-2]` is a word, and `{{` + key + `}}` occurs in the text at the match start |
| Scanner.KeysOf | extractDataTypes.py:46-50 | one key per match, in match order |
| Scanner.PlaceholdersAreWords | extractDataTypes.py:44-50 | every extracted key is a non-empty word of letters, digits and `_`, with its case kept, and occurs in the text as `{{key}}` |
| Scanner.NoPlaceholdersIff | extractDataTypes.py:44-46 | no key is extracted if and only if no `{{word}}` occurs anywhere in the text |
| OrderedMaps.OrderedMap.Put | extractDataTypes.py:52 | `d[k] = v` sets the value; an existing key keeps its position and a new key goes last |
| OrderedMaps.Empty | extractDataTypes.py:42 | `{}` has no keys |
| OrderedMaps.Dedup | extractDataTypes.py:52 | the dict's key order: distinct, with the same elements as the assigned keys |
| OrderedMaps.FirstIndex | extractDataTypes.py:52 | the position where an assigned key first occurs |
| OrderedMaps.DedupFirstOccurrenceOrder | extractDataTypes.py:52 | the dict lists its keys in order of first assignment |
| OrderedMaps.DedupSnoc | extractDataTypes.py:52 | assigning a key again adds no entry; assigning a new key appends it |
| Extraction.ImportsOf | extractDataTypes.py:53-56 | an import is in the set iff it is non-empty and is the import of some extracted key |
| Extraction.ImportsAreModelImports | extractDataTypes.py:53-56 | the import set contains only the time and address imports |
| Extraction.ImportsSnoc | extractDataTypes.py:53-54 | one more key adds its import to the set when that import is non-empty |
| Extraction.TracksPut | extractDataTypes.py:51-52 | one loop step keeps the dict equal to the inferred types of the keys seen, in first-occurrence order |
| Extraction.InvMatch | extractDataTypes.py:46-54 | a match at i preserves the loop invariant with its key recorded, its import collected and the scan resumed at the match end |
| Extraction.InvSkip | extractDataTypes.py:45-46 | a position where no match starts preserves the loop invariant |
| Extraction.NoPlaceholdersNoTerms | extractDataTypes.py:42-56 | the dict is empty iff the text has no `{{word}}`; then the import set is empty too |
| Extraction.TermsOf | extractDataTypes.py:42-52 | the dict built from a list of identifiers, as a value: well formed, with exactly those identifiers as keys |
| Extraction.TracksIsTermsOf | extractDataTypes.py:46-52 | a dict kept in step with the identifiers seen is that value |
| Extraction.ExtractContractDataTypes | extractDataTypes.py:41-56 | the dict's keys are the distinct placeholder identifiers in first-occurrence order; each maps to `matchDataType(key)[0]`; the import set is the set of non-empty `matchDataType(key)[1]`; the dict is `TermsOf` of the placeholders |
| Formatting.Unlines | extractDataTypes.py:124-128 | definition: each line printed followed by a newline; UnlinesAppend, LinesUnlines and UnlinesNewlines state its properties |
| Formatting.Declaration | extractDataTypes.py:131 | definition: the `  o <Type> <name>` line; DeclarationNewlines states when it holds a newline |
| Formatting.Declarations | extractDataTypes.py:130-131 | definition: one declaration per key, in dict order; DeclarationsAreInferred states the types it names |
| Formatting.Formatted | extractDataTypes.py:123-132 | definition: the imports, a blank line and the declarations, printed; FormattedLines and FormattedNonEmpty state its shape |
| Formatting.UnlinesAppend | extractDataTypes.py:125-131 | printing lines distributes over concatenating them |
| Formatting.NewlineIndex | extractDataTypes.py:126 | the first newline of a text, with none before it |
| Formatting.Lines | extractDataTypes.py:123-132 | cutting text at newlines gives lines without newlines |
| Formatting.LinesUnlines | extractDataTypes.py:125-131 | cutting printed newline-free lines at the newlines gives the lines back |
| Formatting.UnlinesLines | extractDataTypes.py:125-131 | a text that is empty or ends in a newline is the printing of its own lines |
| Formatting.UnlinesNewlines | extractDataTypes.py:125-131 | printing n newline-free lines writes exactly n newlines |
| Formatting.DeclarationNewlines | extractDataTypes.py:131 | a `  o <Type> <name>` line has a newline iff the name has one |
| Formatting.FormatContractDataTypes | extractDataTypes.py:123-132 | the output is each import followed by a newline, then a newline, then `  o <Type> <name>` and a newline for each term in dict order |
| Formatting.FormattedNonEmpty | extractDataTypes.py:157 | the output has at least one character per import and term, plus one, so the caller's assertion that it is non-empty cannot fail |
| Formatting.FormattedStartsBlank | extractDataTypes.py:125-128 | with no imports the output begins with the blank line's newline |
| Formatting.FormattedLines | extractDataTypes.py:123-132 | with newline-free imports and names, the output's lines are the imports, a blank line and the declarations, and it has imports + 1 + terms newlines |
| Formatting.ImportsAreSingleLines | extractDataTypes.py:97-112 | neither import string contains a newline |
| Formatting.DeclarationsAreInferred | extractDataTypes.py:130-131 | declarations from a dict mapping each key to its inferred type name that type |
| Formatting.ExtractedImportsAreSingleLines | extractDataTypes.py:53-56 | no collected import contains a newline |
| Formatting.ExtractedKeysAreSingleLines | extractDataTypes.py:44-50 | no extracted identifier contains a newline |
| Formatting.PipelineLines | extractDataTypes.py:41-132 | formatting the extracted dict with the extracted imports, listed in any order, reads back as the imports, a blank line and `  o <matchDataType(key)[0]> key` per distinct placeholder in first-occurrence order; the output has imports + 1 + keys newlines |

## Left out

- `loadContractText` (extractDataTypes.py:18-33) is left out. It does file-system checks and reads a file: I/O.
- `main` (extractDataTypes.py:135-166) is left out. It parses command-line arguments, prints, writes the output file and uses `assert`-driven aborts. Only the fact behind its assertion on line 157 is stated, as `Formatting.FormattedNonEmpty`.
- The `print` calls at extractDataTypes.py:47-48 are left out. They are diagnostics with no effect on the results.
- Unicode is not modelled. Python 3's `\w` and `str.lower()` are Unicode-aware. The model uses ASCII word characters (letters, digits, `_`) and ASCII lower-casing. A name whose non-ASCII letters would change under Unicode lower-casing, or would count as word characters, behaves differently in the model.
- The `re` engine is not modelled in general. The one pattern `{{(\w+)}}` is a hand-written scanner, and `ScanCharacterization` proves it against a description of finditer's leftmost, non-overlapping matching.
- Python set iteration order is not modelled. The extractor returns a Dafny `set`, and `Formatting.FormatContractDataTypes` takes the imports as a sequence in any order. No property depends on that order.
