# scap-rs vulnerability-metadata core in Dafny

This project models the deterministic core of scap-rs, a Rust toolkit for NVD
vulnerability data, and proves properties of that model. The core covers six
areas:

- **CVSS metric codecs** for v2, v3.1 and v4.0. Each metric is a small enum. Its
  parser finds `KEY:` in a vector string and reads one letter. Its Display writes
  `KEY:letter`. Each metric has a constant score, kept here as an integer
  number of hundredths or tenths and used only for ordering lemmas.
- **CVSS vector strings.**
  - The v3 positional parser and printer, and the v3 record builder.
  - The v2 framing.
  - The v4 keyed parser, which gives the environmental metrics their defaults.
  - The v4 MacroVector equivalences EQ1, EQ2, EQ3 and EQ6.
  - The `CVSS:x.y` version tag codec.
- **Score post-processing on scaled integers.**
  - The v3 Roundup, a ceiling to tenths.
  - The v4 half-up rounding.
  - The qualitative severity bands.
- **CPE 2.3 names.**
  - The formatted-string binding parser and printer (section 6.2 of NISTIR 7695).
  - WFN parsing with the exactly-once attribute check (section 5 of NISTIR 7695).
  - `Component`, `Language` and `Part` logical values.
  - `strip_slashes` unescaping.
  - Product and version matching.
- **CVE applicability configurations.** Recursive AND/OR evaluation of
  configuration nodes over CPE match criteria with optional version bounds, and
  extraction of vulnerable products. Both the nvd-cves and the legacy cve
  variants are modelled.
- **Small helpers.**
  - `OneOrMany` with the severity selection of `ImpactMetrics`.
  - The `OrderMap` sort-key codec and its serde adapter.
  - The `MetaData` accessors and `AnyValue`.

Conventions:

- Strings are `seq<char>`.
- Rust's `to_uppercase` is modelled as ASCII upper-casing (`Text.Upper`); the full Unicode case mapping is listed under "Left out".
- `split_once` splits at the first occurrence.
- `split` always yields at least one piece.
- Errors are `Result` values carrying the crate's error variants (`CvssError`,
  `CpeError`).
- Foreign code becomes a parameter:
  - `LanguageTag::parse` is a predicate `isTag`;
  - `version_compare` is `CpeMatch.VersionOracle`;
  - the floating-point score formulas are functions from the record to an
    integer score.

Files, in dependency order:

- `wrappers.dfy`: Option/Result.
- `text.dfy`: string helpers with their own lemmas.
- `cvss_common.dfy`: the shared keyed-letter reader, the metric name tables and
  the version tag.
- `severity.dfy`: the severity bands.
- `cvss_v4_metrics.dfy`, `cvss_v3_metrics.dfy`, `cvss_v2_metrics.dfy`: the metric
  enums.
- `cvss_v4.dfy`, `cvss_v3.dfy`, `cvss_v2.dfy`: the vector strings.
- `cpe_component.dfy`: Component, Language, Part.
- `cpe_name.dfy`: URI and WFN parsing.
- `cpe_match.dfy`: `strip_slashes`, version and product matching.
- `configurations.dfy`: configuration trees.
- `impact.dfy`, `order.dfy`, `meta_data.dfy`: the helpers.

## Model

| member | source | states |
|---|---|---|
| CvssCommon.SaturateU32 | nvd-cvss/src/v4/mod.rs:501 | the Rust float-to-`u32` cast saturates: negatives become 0, values above 2^32-1 become 2^32-1, values in range are kept |
| CvssCommon.ErrorOf | nvd-cvss/src/v3/mod.rs:192-210 | yields an error exactly when the result is a failure, and then it is that failure's error |
| CvssCommon.ParseLowerHex | nvd-cvss/src/v3/attack_vector.rs:116 | reading back the lower-case hexadecimal that `\u{..}` escapes carry gives the number |
| CvssCommon.EscapeDebug | nvd-cvss/src/v3/attack_vector.rs:116 | NUL, tab, CR, LF, backslash and `'` get a backslash and a letter; other C0/C1 controls become `\u{hex}`; every other char is itself |
| CvssCommon.UnescapeEscapeDebug | nvd-cvss/src/v3/attack_vector.rs:116 | an escaped char reads back as that char, so no two chars share an escape |
| CvssCommon.DebugLetter | cvss/src/v2/impact_metrics.rs:93-102 | the `{:?}` rendering of a char is its escape between single quotes; an unescaped char gives exactly three characters |
| CvssCommon.DebugChar | nvd-cvss/src/v3/attack_vector.rs:108-119 | the `{:?}` of the read `Option<char>`: "None", or "Some(" and the char's quoted escape and ")" |
| CvssCommon.DebugCharInjective | nvd-cvss/src/v3/attack_vector.rs:108-119 | different reads give different error values |
| CvssCommon.KeyedLetter | nvd-cvss/src/v3/attack_vector.rs:95-121 | fails exactly when `KEY:` occurs nowhere in the (optionally upper-cased) input, with InvalidCVSS carrying that input and the key as expected value |
| CvssCommon.KeyedLetterOfField | nvd-cvss/src/v3/attack_vector.rs:54-58 | on a rendered field `KEY:rest` the reader returns the first character of `rest` |
| MetricV4.FromStr | nvd-cvss/src/metric/v4.rs:77-99 | a parsed metric's `name` is the input and is never E; anything else is UnknownMetric of the input |
| MetricV4.NamesRoundTrip | nvd-cvss/src/metric/v4.rs:48-99 | `name` is injective over the 15 metrics, and parsing a name gives its metric back for every metric except E, whose name is rejected |
| MetricV3.FromStr | nvd-cvss/src/metric/v3.rs:53-69 | a parsed metric's `name` is the input; anything else is UnknownMetric |
| MetricV3.NamesRoundTrip | nvd-cvss/src/metric/v3.rs:31-69 | `name` is injective over the 8 metrics and parsing a name gives its metric back |
| MetricV2.FromStr | cvss/src/metric/v2.rs:45-59 | a parsed metric's `name` is the input; anything else is UnknownMetric |
| MetricV2.NamesRoundTrip | cvss/src/metric/v2.rs:25-59 | `name` is injective and round-trips for all 6 metrics; matching is case-sensitive, so "AU" is UnknownMetric |
| CvssVersion.FromStr | cvss/src/version.rs:20-36 | a recognised version is the one whose number equals the upper-cased input with or without a `CVSS:` prefix; every such input is recognised; anything else is None, never an error |
| CvssVersion.FromStrToString | cvss/src/version.rs:20-48 | parsing the Display of any version (including None as "NONE") gives it back, also with a `CVSS:` prefix |
| Severity.FromTenths | nvd-cvss/src/severity.rs:56-70 | each rating holds exactly on its band: below 0.1 None, below 4.0 Low, below 7.0 Medium, below 9.0 High, else Critical |
| Severity.FromTenthsMonotone | nvd-cvss/src/severity.rs:56-70 | a higher score never gives a lower rating |
| Severity.FromTenthsExamples | nvd-cvss/src/severity.rs:157-171 | the boundary values of the crate's unit test land in the asserted bands |
| Severity.FromStr | nvd-cvss/src/severity.rs:72-89 | accepts exactly the five capitalised names, each giving the rating it names; anything else is InvalidCVSS |
| Severity.FromStrAsStr | nvd-cvss/src/severity.rs:38-89 | parsing the Display of a rating gives it back |
| SeverityV2.FromTenths | nvd-cvss/src/severity.rs:121-133 | the v3 bands except that everything from 7.0 up is High |
| SeverityV2.FromTenthsMonotone | nvd-cvss/src/severity.rs:121-133 | a higher score never gives a lower v2 rating |
| SeverityV2.FromStr | nvd-cvss/src/severity.rs:135-151 | accepts exactly the four v2 names; "Critical" and anything else is InvalidCVSS |
| SeverityV2.FromStrAsStr | nvd-cvss/src/severity.rs:104-151 | parsing the Display of a v2 rating gives it back |
| V4AttackComplexity.KeyFromTable | nvd-cvss/src/metric/v3.rs:31-45 | the key the v4 AC parser searches is the v3 name table's "AC" |
| V4AttackComplexity.FromStr | nvd-cvss/src/v4/attack_complexity.rs:86-110 | success exactly when the letter after the first "AC:" of the upper-cased input is L or H, giving that value; a missing key or other letter is InvalidCVSS with the source's values |
| V4AttackComplexity.FromStrToString | nvd-cvss/src/v4/attack_complexity.rs:57-84 | Display then parse is the identity |
| V4AttackComplexity.ScoreOrder | nvd-cvss/src/v4/attack_complexity.rs:51-77 | `is_low` holds exactly for Low, which scores below High |
| V4AttackRequirements.KeyFromTable | nvd-cvss/src/metric/v4.rs:48-69 | the key is the v4 name table's "AT" |
| V4AttackRequirements.FromStr | nvd-cvss/src/v4/attack_requirements.rs:84-108 | success exactly when the letter after "AT:" is N or P, giving None or Present; otherwise InvalidCVSS |
| V4AttackRequirements.FromStrToString | nvd-cvss/src/v4/attack_requirements.rs:55-82 | Display then parse is the identity |
| V4AttackRequirements.ScoreOrder | nvd-cvss/src/v4/attack_requirements.rs:50-75 | `is_none` holds exactly for None, which scores below Present |
| V4UserInteraction.KeyFromTable | nvd-cvss/src/metric/v3.rs:31-45 | the key is the v3 name table's "UI" |
| V4UserInteraction.FromStr | nvd-cvss/src/v4/user_interaction.rs:94-119 | success exactly when the letter after "UI:" is N, P or A; otherwise InvalidCVSS |
| V4UserInteraction.FromStrToString | nvd-cvss/src/v4/user_interaction.rs:47-91 | Display then parse is the identity |
| V4UserInteraction.ScoreOrder | nvd-cvss/src/v4/user_interaction.rs:60-83 | `is_none` holds exactly for None; scores rise None < Passive < Active |
| V4PrivilegesRequired.KeyFromTable | nvd-cvss/src/metric/v3.rs:31-45 | the key is the v3 name table's "PR" |
| V4PrivilegesRequired.FromStr | cvss/src/v4/privileges_required.rs:91-116 | success exactly when the letter after "PR:" of the upper-cased input is N, L or H; otherwise InvalidCVSS |
| V4PrivilegesRequired.FromStrToString | cvss/src/v4/privileges_required.rs:46-89 | Display then parse is the identity |
| V4PrivilegesRequired.ScoreOrder | cvss/src/v4/privileges_required.rs:59-81 | `is_none` holds exactly for None; scores rise None < Low < High |
| V4VulnerableImpact.KeyFromTable | nvd-cvss/src/metric/v4.rs:48-69 | the keys of the three metrics are the v4 table's VC, VI and VA |
| V4VulnerableImpact.FromStr | nvd-cvss/src/v4/vulnerable_impact_metrics.rs:106-183 | for each of VC, VI and VA: success exactly when the letter after the key is N, L or H; a missing key, end of input or other letter is InvalidCVSS |
| V4VulnerableImpact.FromStrToString | nvd-cvss/src/v4/vulnerable_impact_metrics.rs:185-284 | Display then parse is the identity for every value of each of the three metrics |
| V4VulnerableImpact.ScoreOrder | nvd-cvss/src/v4/vulnerable_impact_metrics.rs:202-345 | `is_high` and `is_none` never both hold, and scores fall as impact rises (None > Low > High) |
| V4VulnerableImpact.AllNone | nvd-cvss/src/v4/vulnerable_impact_metrics.rs:346-351 | `all_none` holds exactly for the record with all three impacts None |
| V4VulnerableImpact.Eq3 | nvd-cvss/src/v4/vulnerable_impact_metrics.rs:353-372 | EQ3 is total and at most 2: 0 iff VC:H and VI:H, 2 iff none of the three is High, 1 otherwise |
| V4Environmental.KeyFromTable | nvd-cvss/src/metric/v4.rs:48-69 | the keys are the v4 table's CR, IR and AR |
| V4Environmental.FromStr | nvd-cvss/src/v4/environmental.rs:140-166 | for each requirement: success exactly when the letter after the key is L, M, H or X (NotDefined); otherwise InvalidCVSS naming "L,H" as expected |
| V4Environmental.FromStrToString | nvd-cvss/src/v4/environmental.rs:130-172 | Display then parse is the identity for each requirement |
| V4Environmental.ScoreOrder | nvd-cvss/src/v4/environmental.rs:81-128 | `is_high` holds for High alone; NotDefined scores like High, and High < Medium < Low |
| CvssV4.Eq1 | nvd-cvss/src/v4/mod.rs:80-106 | EQ1 is never None: 0 exactly for AV:N with PR:N and UI:N, 2 exactly for AV:P or none of the three N, else 1 |
| CvssV4.Eq1LevelOneExamples | nvd-cvss/src/v4/mod.rs:87-97 | the example vectors listed in the source's EQ1 comments fall in the levels it gives |
| CvssV4.Eq2 | nvd-cvss/src/v4/mod.rs:109-116 | EQ2 is 0 iff AC:L with AT:N, 1 otherwise, never None |
| CvssV4.Eq6AsWritten | nvd-cvss/src/v4/mod.rs:356-374 | the source's EQ6: 0 iff some requirement/impact pair is High/High; otherwise None when VC is High and 1 when it is not |
| CvssV4.Eq6 | nvd-cvss/src/v4/mod.rs:356-374 | EQ6 as its comment defines it: 0 iff some pair is High/High, 1 otherwise |
| CvssV4.Eq6Agreement | nvd-cvss/src/v4/mod.rs:356-374 | the two EQ6s agree whenever the source's answers, and it fails to answer exactly when the intended EQ6 is 1 with VC:H |
| CvssV4.MacroVectorWith | nvd-cvss/src/v4/mod.rs:489-497 | each component of the macro vector is the corresponding EQ with None replaced by 0 |
| CvssV4.MacroVectorAsWritten | nvd-cvss/src/v4/mod.rs:489-497 | with the source's EQ6, the sixth component is 0 when a High/High pair exists or VC is High |
| CvssV4.MacroVectorOf | nvd-cvss/src/v4/mod.rs:489-497 | with the intended EQ6, the sixth component is 0 iff a High/High pair exists and 1 otherwise; EQ1 ≤ 2, EQ2 ≤ 1, EQ3 ≤ 2 |
| CvssV4.Eq6AsWrittenCounterexample | nvd-cvss/src/v4/mod.rs:356-374 | VC:H/VI:N/VA:N with CR:L has no High/High pair, yet the source's macro vector puts it in EQ6 level 0 |
| CvssV4.Fields | nvd-cvss/src/v4/mod.rs:192-215 | the rendering lists the 15 metrics in the fixed order AV…E, each as `KEY:` plus one letter |
| CvssV4.ToStringFields | nvd-cvss/src/v4/mod.rs:192-215 | splitting the Display at '/' gives the version tag followed by the 15 fields, 16 pieces in all |
| CvssV4.FieldsNoSlash | nvd-cvss/src/v4/mod.rs:192-215 | no rendered field contains '/' |
| CvssV4.ParseExploitAbility | nvd-cvss/src/v4/mod.rs:154-160 | fails iff one of AV, AC, AT, PR, UI fails, with the first failing metric's error; on success each field is that metric's parse |
| CvssV4.ParseVulnerable | nvd-cvss/src/v4/mod.rs:161-165 | fails iff VC, VI or VA fails, with the first error; on success each field is its parse |
| CvssV4.ParseSubsequent | nvd-cvss/src/v4/mod.rs:166-170 | fails iff SC, SI or SA fails, with the first error; on success each field is its parse |
| CvssV4.ParseEnvironmental | nvd-cvss/src/v4/mod.rs:172-177 | never fails: each requirement that does not parse takes the default High, the others their parsed value |
| CvssV4.VectorString | nvd-cvss/src/v4/mod.rs:153-189 | a missing mandatory metric fails with that metric's error, in source order; E and CR/IR/AR never cause failure; the record is version 4.0 with score 0 |
| CvssV4.BaseScore | nvd-cvss/src/v4/mod.rs:245-248 | the score is 0 whenever all six vulnerable and subsequent impacts are None, and the interpolated score otherwise |
| CvssV4.FromStr | nvd-cvss/src/v4/mod.rs:216-242 | no '/' is InvalidPrefix; an unrecognised tag is InvalidCVSSVersion; any recognised tag passes; a parsed record is version 4.0, its vector string is its Display, its score is `CvssV4.BaseScore` of the record the keyed parser built, and its severity is the band of that score |
| CvssV4.Roundup | nvd-cvss/src/v4/mod.rs:500-508 | the result is the saturated hundredths rounded half-up to tenths |
| CvssV4.RoundupExamples | nvd-cvss/src/v4/mod.rs:516-521 | 0.12 → 0.1, 0.15 → 0.2, 0.949 → 0.9 |
| CvssV4.RoundupMonotone | nvd-cvss/src/v4/mod.rs:500-508 | a larger input never rounds lower |
| V3AttackVector.KeyFromTable | nvd-cvss/src/metric/v3.rs:31-45 | the key is the v3 table's "AV" |
| V3AttackVector.FromStr | nvd-cvss/src/v3/attack_vector.rs:95-121 | success exactly when the letter after "AV:" is N, A, L or P; a missing key or other letter is InvalidCVSS |
| V3AttackVector.FromStrToString | nvd-cvss/src/v3/attack_vector.rs:54-93 | Display then parse is the identity |
| V3AttackVector.ScoreOrder | nvd-cvss/src/v3/attack_vector.rs:77-84 | scores fall strictly Network > Adjacent > Local > Physical |
| V3AttackComplexity.KeyFromTable | nvd-cvss/src/metric/v3.rs:31-45 | the key is the v3 table's "AC" |
| V3AttackComplexity.FromStr | nvd-cvss/src/v3/attack_complexity.rs:78-102 | success exactly when the letter after "AC:" is L or H; otherwise InvalidCVSS |
| V3AttackComplexity.FromStrToString | nvd-cvss/src/v3/attack_complexity.rs:49-76 | Display then parse is the identity |
| V3AttackComplexity.ScoreOrder | nvd-cvss/src/v3/attack_complexity.rs:64-69 | Low scores above High |
| V3PrivilegesRequired.KeyFromTable | nvd-cvss/src/metric/v3.rs:31-45 | the key is the v3 table's "PR" |
| V3PrivilegesRequired.FromStr | nvd-cvss/src/v3/privileges_required.rs:78-103 | success exactly when the letter after "PR:" is N, L or H; otherwise InvalidCVSS |
| V3PrivilegesRequired.FromStrToString | nvd-cvss/src/v3/privileges_required.rs:44-76 | Display then parse is the identity |
| V3PrivilegesRequired.ScopedScoreFacts | nvd-cvss/src/v3/privileges_required.rs:66-121 | `score` is the unchanged-scope score; None scores the same in both scopes; Low and High rise when scope changes; None > Low > High in either scope |
| V3UserInteraction.KeyFromTable | nvd-cvss/src/metric/v3.rs:31-45 | the key is the v3 table's "UI" |
| V3UserInteraction.FromStr | nvd-cvss/src/v3/user_interaction.rs:78-102 | success exactly when the letter after "UI:" is N or R; otherwise InvalidCVSS |
| V3UserInteraction.FromStrToString | nvd-cvss/src/v3/user_interaction.rs:42-75 | Display then parse is the identity |
| V3UserInteraction.ScoreOrder | nvd-cvss/src/v3/user_interaction.rs:63-68 | None scores above Required |
| V3Impact.KeyFromTable | nvd-cvss/src/metric/v3.rs:31-45 | the keys are the v3 table's C, I and A |
| V3Impact.FromStr | nvd-cvss/src/v3/impact_metrics.rs:93-170 | for each of C, I and A: success exactly when the letter after the key is N, L or H; otherwise InvalidCVSS |
| V3Impact.FromStrToString | nvd-cvss/src/v3/impact_metrics.rs:172-203 | Display then parse is the identity for each of the three metrics |
| V3Impact.ScoreOrder | nvd-cvss/src/v3/impact_metrics.rs:189-195 | None < Low < High |
| V3Impact.ImpactSubScore | nvd-cvss/src/v3/impact_metrics.rs:307-315 | the base impact sub-score, 1 - (1-C)(1-I)(1-A) in millionths, lies in [0, 1) |
| V3Impact.ImpactSubScoreZero | nvd-cvss/src/v3/impact_metrics.rs:307-315 | the sub-score is 0 exactly when all three impacts are None |
| CvssV3.Fields | nvd-cvss/src/v3/mod.rs:154-170 | the rendering has 8 fields AV, AC, PR, UI, S, C, I, A, none containing '/' |
| CvssV3.ParseFields | nvd-cvss/src/v3/mod.rs:192-210 | success iff each of the first 8 fields parses as its positional metric; otherwise the first failing field's error (InvalidCVSS when the field is missing); extra fields are ignored |
| CvssV3.ParseFieldsOfFields | nvd-cvss/src/v3/mod.rs:154-210 | parsing the rendered fields gives the metrics back |
| CvssV3.Roundup | nvd-cvss/src/v3/mod.rs:325-333 | the result is the least tenth at or above the saturated input |
| CvssV3.RoundupExamples | nvd-cvss/src/v3/mod.rs:339-345 | 4.00 → 4.0, 4.02 → 4.1, 0.8619848 → 0.9, 0.9006104 → 1.0 |
| CvssV3.RoundupMonotone | nvd-cvss/src/v3/mod.rs:325-333 | a larger input never rounds lower |
| CvssV3.BaseScore | nvd-cvss/src/v3/mod.rs:115-127 | 0 when the impact is ≤ 0, never above 10.0, and otherwise the rounded-up capped sum for the scope |
| CvssV3.Scored | nvd-cvss/src/v3/mod.rs:115-127 | filling in the score changes nothing but score and severity; the score is `BaseScore` of the record's scope and sub-scores; severity is the band of the score; no impact gives 0 and None |
| CvssV3.FromStr | nvd-cvss/src/v3/mod.rs:172-225 | no '/' is InvalidPrefix; an unrecognised tag is InvalidCVSSVersion; any recognised tag passes; success iff the fields parse; the vector string is the Display of the record; the score is `BaseScore` of the record as it stood with the input as vector string; severity is the band of the score |
| CvssV3.FromStrToString | nvd-cvss/src/v3/mod.rs:154-225 | parsing the Display of any record with a version gives its version, metrics and Display back |
| CvssV3.Build | nvd-cvss/src/v3/mod.rs:251-271 | the built record keeps the given metrics, its vector string is its Display, its score is `BaseScore` of the record with that vector string, and its severity is the band of its score |
| CvssV3.BuildFromStr | nvd-cvss/src/v3/mod.rs:251-271 | parsing the vector string of a built record gives the built record back, version, score and severity included |
| V2AccessVector.KeyFromTable | cvss/src/metric/v2.rs:25-37 | the key is the v2 table's "AV" |
| V2AccessVector.FromStr | cvss/src/v2/access_vector.rs:71-96 | success exactly when the letter after "AV:" of the upper-cased input is N, A or L; otherwise InvalidCVSS |
| V2AccessVector.FromStrToString | cvss/src/v2/access_vector.rs:33-69 | Display then parse is the identity |
| V2AccessVector.ScoreOrder | cvss/src/v2/access_vector.rs:55-61 | Network > Adjacent > Local |
| V2AccessComplexity.KeyFromTable | cvss/src/metric/v2.rs:25-37 | the key is the v2 table's "AC" |
| V2AccessComplexity.FromStr | nvd-cvss/src/v2/access_complexity.rs:92-117 | success exactly when the letter after "AC:" is H, M or L; otherwise InvalidCVSS with expected "H,M,L" |
| V2AccessComplexity.FromStrToString | nvd-cvss/src/v2/access_complexity.rs:45-90 | Display then parse is the identity |
| V2AccessComplexity.ScoreOrder | nvd-cvss/src/v2/access_complexity.rs:76-82 | High < Medium < Low |
| V2Authentication.KeyFromTable | cvss/src/metric/v2.rs:25-37 | the key is the v2 table's mixed-case "Au" |
| V2Authentication.FromStr | nvd-cvss/src/v2/authentication.rs:81-106 | case-sensitive: success exactly when the letter after "Au:" of the input as given is M, S or N; otherwise InvalidCVSS |
| V2Authentication.FromStrToString | nvd-cvss/src/v2/authentication.rs:34-79 | Display then parse is the identity |
| V2Authentication.ScoreOrder | nvd-cvss/src/v2/authentication.rs:65-71 | Multiple < Single < None |
| V2Impact.KeyFromTable | cvss/src/metric/v2.rs:25-37 | the keys are the v2 table's C, I and A |
| V2Impact.ScoreOrder | cvss/src/v2/impact_metrics.rs:194-200 | None < Partial < Complete |
| V2Impact.Stripped | cvss/src/v2/impact_metrics.rs:77-84 | the C/I parsers drop a leading `KEY:`; input starting with the key but not `KEY:` leaves nothing; other input is kept whole, upper-cased |
| V2Impact.PrefixedFromStr | cvss/src/v2/impact_metrics.rs:73-136 | C and I: success exactly when the first letter of the stripped input is N, P or C; nothing left is InvalidCVSS with the empty rest; another letter is InvalidCVSS quoting it |
| V2Impact.KeyedFromStr | cvss/src/v2/impact_metrics.rs:137-162 | A: success exactly when the letter after "A:" is N, P or C; a missing key or other letter is InvalidCVSS |
| V2Impact.FromStrToString | cvss/src/v2/impact_metrics.rs:73-172 | Display then parse is the identity for each of the three metrics |
| V2Impact.BareLetter | cvss/src/v2/impact_metrics.rs:73-162 | the parser styles differ on a bare letter: I accepts it, C accepts it except "C" (stripped to nothing), A always rejects it |
| CvssV2.Fields | cvss/src/v2/mod.rs:63-77 | the rendering has 6 fields AV, AC, Au, C, I, A, none containing '/' |
| CvssV2.ParseFields | cvss/src/v2/mod.rs:99-116 | success iff each of the first 6 fields parses as its positional metric; otherwise the first failing field's error |
| CvssV2.ParseFieldsOfFields | cvss/src/v2/mod.rs:63-116 | parsing the rendered fields gives the metrics back |
| CvssV2.FromStr | cvss/src/v2/mod.rs:79-120 | no '/' is InvalidPrefix; an unrecognised tag is InvalidCVSSVersion; a parsed record keeps the input text as its vector string, and its score is the score formula applied to the parsed record with score 0, as `update_score` sets it |
| CvssV2.FromStrToString | cvss/src/v2/mod.rs:63-120 | parsing the Display of any record with a version gives its version and metrics back |
| CvssV2.AnyVersionAccepted | cvss/src/v2/mod.rs:82-98 | a v2 vector tagged 3.1 still parses, keeping version 3.1 |
| CvssV2.ImpactMetricFromStr | cvss/src/v2/mod.rs:190-216 | succeeds iff the vector parses, with its error otherwise; all privilege flags are false and the optional flags None |
| CpeComponent.FromStr | cpe/src/component.rs:147-157 | total: "*" is Any, "-" is NA, anything else is a Value holding the text |
| CpeComponent.FromStrToString | cpe/src/component.rs:147-193 | Display inverts parsing on every string; parsing the Display of c gives c back unless c is Value("*") or Value("-") |
| CpeComponent.ExactlyOneKind | cpe/src/component.rs:168-178 | exactly one of `is_any`, `is_na`, `is_value` holds |
| CpeComponent.MatchesCharacterised | cpe/src/component.rs:160-166 | `matches` holds iff Any, or a Value equal to the text; never for NA |
| CpeLanguage.FromStr | cpe/src/component.rs:21-33 | a valid language tag becomes Tag; otherwise "*" is Any, "-" is NA, and other text a Value |
| CpeLanguage.FromStrToString | cpe/src/component.rs:21-62 | Display inverts parsing, and parsing a Display gives the value back exactly when the tag test classifies its text the same way |
| CpePart.FromStr | cpe/src/part.rs:53-72 | only the first character counts: h, o, a give Hardware, OperatingSystem, Application; empty or other input is InvalidPart; Any is never produced |
| CpePart.FromStrToString | cpe/src/part.rs:53-89 | the three concrete parts round-trip in either Display mode; Any never does |
| CpePart.Deserialize | cpe/src/part.rs:32-45 | never fails: exactly "h", "o", "a" give a concrete part, everything else is Any |
| CpePart.ParseVersusDeserialize | cpe/src/part.rs:32-72 | "app" parses as Application but deserialises to Any |
| CpeName.Fields | nvd-cpe/src/lib.rs:222-243 | the binding has 11 components, part to other |
| CpeName.FromComponents | nvd-cpe/src/lib.rs:101-125 | the 11 components are read in order into part…other |
| CpeName.ParseUri | nvd-cpe/src/lib.rs:87-126 | without the "cpe:2.3:" prefix it is InvalidPrefix; otherwise fewer than 11 components is the missing-component error, a bad part is its error, and 11 or more give the components in order |
| CpeName.FromUri | nvd-cpe/src/lib.rs:87-126 | every failure is InvalidPrefix or InvalidPart |
| CpeName.LegacyFromUri | cpe/src/lib.rs:50-153 | the legacy parser reports later missing components as InvalidUri, so an InvalidPart is at most one character long |
| CpeName.FromUriAgreement | cpe/src/lib.rs:50-153 | both parsers succeed on the same inputs with the same name, and agree on every error other than InvalidPart |
| CpeName.FieldsNoColon | nvd-cpe/src/lib.rs:222-243 | the components of a bindable name contain no ':' |
| CpeName.FromComponentsOfFields | nvd-cpe/src/lib.rs:101-243 | reading back the rendered components of a bindable name gives the name |
| CpeName.AfterPrefix | nvd-cpe/src/lib.rs:222-243 | the Display is the prefix followed by the components joined with ':' |
| CpeName.FromUriToString | nvd-cpe/src/lib.rs:87-243 | both parsers invert Display on bindable names, and trailing extra components are ignored |
| CpeName.ParsesFrom | nvd-cpe/src/lib.rs:87-126 | an input whose components read as a name parses to that name under both parsers |
| CpeName.AnyPartNotBindable | cpe/src/part.rs:74-89 | a name with part Any prints "*" as its part and so fails to parse back, with InvalidPart("*") |
| CpeName.AttributeOf | nvd-cpe/src/lib.rs:170-188 | recognises exactly the 11 attribute names |
| CpeName.ParseAttr | nvd-cpe/src/lib.rs:170-188 | an unknown key is InvalidPart of the key; "part" passes on Part's error; "language" and the component keys never fail; success gives the named attribute and a fitting value |
| CpeName.Attr | nvd-cpe/src/lib.rs:43-66 | an attribute's value always has that attribute's type |
| CpeName.SetAttr | nvd-cpe/src/lib.rs:170-180 | assigning an attribute sets it and leaves the other ten unchanged |
| CpeName.Entries | nvd-cpe/src/lib.rs:158-204 | every failure of the entry loop is InvalidPart |
| CpeName.EntriesCharacterised | nvd-cpe/src/lib.rs:158-204 | the loop succeeds iff every entry has '=', a known key, a valid value and a key not seen before; then the seen set grows by exactly the entries' keys, each entry's value is assigned, and other attributes are untouched |
| CpeName.WfnBody | nvd-cpe/src/lib.rs:129-144 | the frame is accepted iff the name is "wfn:[" + body + "]" |
| CpeName.FromWfn | nvd-cpe/src/lib.rs:128-212 | a bad frame is InvalidPrefix of the name; every failure is InvalidPart, InvalidPrefix or InvalidWfn |
| CpeName.FromWfnCharacterised | nvd-cpe/src/lib.rs:128-212 | a framed name parses iff its entries are valid, pairwise distinct and cover all 11 attributes; then each attribute has its entry's value; valid distinct entries missing an attribute are InvalidWfn |
| CpeName.WfnExamples | cpe/src/lib.rs:155-239 | "wfn:[]" is InvalidPart("") and an unclosed frame is InvalidPrefix |
| CpeSlashes.StripSlashes | nvd-cpe/src/lib.rs:245-265 | the output contains no '\\' and is no longer than the input; text without '\\' is unchanged |
| CpeSlashes.StripSlashesLoop | nvd-cpe/src/lib.rs:245-265 | the character loop of `strip_slashes` computes the recursive definition |
| CpeSlashes.Escape | nvd-cpe/src/lib.rs:245-265 | escaping never shortens the text |
| CpeSlashes.StripEscape | nvd-cpe/src/lib.rs:245-265 | unescaping inverts escaping of any backslash-free text |
| CpeSlashes.StripSlashesExamples | cpe/src/lib.rs:279-299 | "a\\:b" becomes "a:b", an escaped backslash disappears, a trailing backslash is dropped |
| CpeMatch.VersionCmp | nvd-cpe/src/lib.rs:290-297 | an unknown operator gives false; otherwise true iff the comparison succeeds and holds |
| CpeMatch.NameVersion | nvd-cpe/src/lib.rs:300-313 | the version text, with " " and the update appended when the update is a value |
| CpeMatch.MatchVersion | nvd-cpe/src/lib.rs:300-313 | Any matches every version, NA none, and a value iff the oracle says the version text equals it |
| CpeMatch.NormalizeTargetSoftware | nvd-cpe/src/lib.rs:324-330 | "target_sw-product" when the target software is a value, else the product text |
| CpeMatch.MatchProduct | nvd-cpe/src/lib.rs:315-322 | Any matches every product, NA none, and a value exactly the normalised product text |
| CpeMatch.MatchProductUnique | cpe/src/lib.rs:349-364 | a name with a value product matches at most one product string |
| CpeMatch.ProductOf | nvd-cpe/src/lib.rs:68-83 | the product triple is the part's default Display and the displayed vendor and product |
| CpeMatch.ProductOfInjective | nvd-cpe/src/lib.rs:68-83 | for printable vendors and products, equal triples come from names with equal part, vendor and product |
| ConfigurationNodes.HasVersionRange | nvd-cves/src/v4/configurations.rs:116-121 | false exactly when all four bounds are absent |
| ConfigurationNodes.MatchVersionRange | nvd-cves/src/v4/configurations.rs:170-195 | true iff every present bound holds (≥, >, ≤, < through the oracle); true with no bounds |
| ConfigurationNodes.AnyLeafExists | nvd-cves/src/v4/configurations.rs:215-225 | the OR loop over matches is true iff some match holds |
| ConfigurationNodes.AllLeafForall | nvd-cves/src/v4/configurations.rs:226-236 | the AND loop over matches is true iff every match holds (true on none) |
| ConfigurationNodes.IsMatchHolds | nvd-cves/src/v4/configurations.rs:211-250 | node evaluation equals the quantifier definition: non-empty matches decide by any/all, otherwise children decide by any/all |
| ConfigurationNodes.AnyChildExists | nvd-cves/src/v4/configurations.rs:237-243 | the OR loop over children is true iff some child holds |
| ConfigurationNodes.AllChildForall | nvd-cves/src/v4/configurations.rs:244-249 | the AND loop over children is true iff every child holds |
| ConfigurationNodes.IsMatchIgnores | nvd-cves/src/v4/configurations.rs:31-43 | with matches present, neither `negate` nor the children affect the result |
| NvdConfigurations.IsVulnerable | nvd-cves/src/v4/configurations.rs:106-115 | true iff the vulnerable flag is set or some bound is present |
| NvdConfigurations.IsMatch | nvd-cves/src/v4/configurations.rs:197-207 | false when the URI does not parse or the product does not match; otherwise the range check if a bound is present, else the CPE version match |
| NvdConfigurations.NodeIsMatch | nvd-cves/src/v4/configurations.rs:211-250 | node evaluation over CPE matches equals the quantifier definition |
| NvdConfigurations.ProductOfMatch | nvd-cves/src/v4/configurations.rs:122-127 | the product of the parsed URI, or the default product when it does not parse |
| NvdConfigurations.VendorProductCharacterised | nvd-cves/src/v4/configurations.rs:251-260 | a product is collected iff some vulnerable match in the node or a descendant yields it |
| NvdConfigurations.ChildProductsCharacterised | nvd-cves/src/v4/configurations.rs:251-260 | the children's products are exactly those reported by some child |
| NvdConfigurations.UniqueVendorProductAsWritten | nvd-cves/src/v4/configurations.rs:19-27 | the flattened products of all nodes, as a bag, hold exactly the products of some node |
| NvdConfigurations.ProductBagMembers | nvd-cves/src/v4/configurations.rs:19-27 | the bag's members are exactly the products of some node |
| NvdConfigurations.UniqueVendorProductDuplicates | nvd-cves/src/v4/configurations.rs:19-27 | the same node twice yields its product twice |
| NvdConfigurations.UniqueVendorProduct | nvd-cves/src/v4/configurations.rs:19-27 | the unique products are exactly the products of some node, and the same members as the bag |
| NvdConfigurations.RangeOf | nvd-cves/src/v4/configurations.rs:128-155 | given the parse of the criterion's URI: the version is present iff it parsed; an exclusive start overrides an inclusive one, likewise for the end; with no start bound the "=" operator appears iff the test pins the parsed version |
| NvdConfigurations.Format | nvd-cves/src/v4/configurations.rs:156-168 | with no bounds the text is "op version"; with bounds it starts with the start version followed by its operator |
| NvdConfigurations.PinnedAsWritten | nvd-cves/src/v4/configurations.rs:135-137 | the source's test: true for NA and for any value other than "*" and "-" |
| NvdConfigurations.Pinned | nvd-cves/src/v4/configurations.rs:135-137 | intended test: true exactly for a value whose text is neither "*" nor "-" |
| NvdConfigurations.GetVersionRangeAsWritten | nvd-cves/src/v4/configurations.rs:128-169 | without bounds the text starts with '=' exactly when the source's test pins the version |
| NvdConfigurations.GetVersionRange | nvd-cves/src/v4/configurations.rs:128-169 | without bounds the text starts with '=' exactly when the version is a real value |
| NvdConfigurations.GetVersionRangeNotApplicable | nvd-cves/src/v4/configurations.rs:135-137 | for an NA version the source renders "= -" where the intended test renders " -" |
| LegacyConfigurations.IsMatch | cve/src/configurations.rs:89-97 | requires a product match; then the range check if a bound is present, else the version match |
| LegacyConfigurations.NodeIsMatch | cve/src/configurations.rs:100-141 | node evaluation equals the same quantifier definition |
| LegacyConfigurations.AgreesWithNvd | cve/src/configurations.rs:89-97 | on a parseable URI the nvd-cves match and the legacy match agree |
| CveImpact.Inner | nvd-cves/src/impact.rs:52-60 | present iff the vector form is non-empty, and then its first element |
| CveImpact.AsSeq | nvd-cves/src/impact.rs:62-70 | One is a singleton and None is empty |
| CveImpact.InnerHead | nvd-cves/src/impact.rs:52-60 | Many with head t has the same inner value as One(t) |
| CveImpact.SeverityOf | nvd-cves/src/impact.rs:25-35 | the first v3 entry's severity, else the first v2 entry's, else "None"; always a valid severity name |
| CveImpact.SeverityIgnoresV31 | nvd-cves/src/impact.rs:25-35 | `base_metric_v31` never affects the severity |
| CveImpact.DefaultSeverity | nvd-cves/src/impact.rs:46-50 | the default impact has severity "None" |
| Order.FromStrAsWritten | nvd-model/src/common/order.rs:34-48 | a leading '-' gives Desc with the rest as name; anything else gives Asc with an empty name |
| Order.FromStrAsWrittenRoundTrip | nvd-model/src/common/order.rs:19-48 | the source round-trips a map exactly when it is Desc or has an empty name |
| Order.FromStrAsWrittenLosesName | nvd-model/src/common/order.rs:44 | "name" parses to an ascending map with an empty name |
| Order.FromStr | nvd-model/src/common/order.rs:34-48 | Display inverts parsing, and Desc holds exactly for a leading '-' |
| Order.FromStrRoundTrip | nvd-model/src/common/order.rs:19-48 | a map round-trips unless it is Asc with a name starting with '-' |
| Order.Serialize | nvd-model/src/common/order.rs:55-61 | none iff none |
| Order.Deserialize | nvd-model/src/common/order.rs:62-71 | none iff none; a present string reads as `from_str` as written reads it, so its Display is the string exactly when the string starts with '-' or is empty |
| Order.SerdeRoundTripAsWritten | nvd-model/src/common/order.rs:55-71 | stored text survives a read and a write iff it is absent, empty or starts with '-'; a map survives a write and a read iff it is absent, Desc or unnamed |
| Order.SerdeLosesName | nvd-model/src/common/order.rs:62-71 | the stored key "name" reads as the unnamed Asc map and is written back as "" |
| Order.DeserializeIntended | nvd-model/src/common/order.rs:62-71 | with the corrected reader, a present string parses to a map whose Display is that string |
| Order.SerdeRoundTrip | nvd-model/src/common/order.rs:55-71 | with the corrected reader, serialising a deserialised value gives it back, and deserialising a serialised map gives it back when it is printable |
| MetaData.FromHashmap | nvd-model/src/types.rs:122-126 | a HashMap variant with the single key given |
| MetaData.FromHashset | nvd-model/src/types.rs:127-131 | a HashSet variant with the single key given |
| MetaData.GetHashmap | nvd-model/src/types.rs:132-139 | present iff the variant is HashMap and holds the key, and then the stored map |
| MetaData.GetHashset | nvd-model/src/types.rs:140-145 | present iff the variant is HashSet and holds the key, and then the stored set |
| MetaData.HashmapRoundTrip | nvd-model/src/types.rs:122-145 | the map stored under a name is found under it, not as a set, and under no other name |
| MetaData.HashsetRoundTrip | nvd-model/src/types.rs:127-145 | the set stored under a name is found under it, not as a map, and under no other name |
| MetaData.DefaultEmpty | nvd-model/src/types.rs:115-119 | the default finds nothing under any key |
| MetaData.New | nvd-model/src/types.rs:38-42 | a new wrapper derefs to the wrapped value |
| MetaData.NewDeref | nvd-model/src/types.rs:38-50 | wrapping the dereferenced value gives the wrapper back |
| MetaData.DefaultValue | nvd-model/src/types.rs:58-64 | the default wrapper derefs to the type's default |

## Left out

- Floating-point score arithmetic. This covers:
  - the v3 impact and exploitability formulas with `powf` (nvd-cvss/src/v3/mod.rs:129-143);
  - the v4 interpolation, lookup tables and `severity_distances` (nvd-cvss/src/v4/mod.rs:249-353, 375-488);
  - the v2 `update_score` and `round_to_1_decimal` (cvss/src/v2/mod.rs:130-159).

  These become functions passed as parameters and returning integer scores. The roundups take their input already scaled to an integer; the multiplication by 100 or 100000 and its float error are not modelled.
- CvssV4.MacroVectorWith: EQ4 and EQ5 are parameters, because `SubsequentImpact::eq4` and `ExploitMaturity::eq5` are not part of this model.
- Stand-in modules for support types whose source is not part of this model: v4 `AttackVector`, v4 `SubsequentImpact`, v4 `ExploitMaturity` and v3 `ScopeType`.
  - They follow the pattern of the modelled metrics of the same crate.
  - They have no score.
  - They have no rows above.
  - ExploitMaturity's default NotDefined is an assumption.
- `Metric::help` and `metric_help`, the localised help texts: they carry no behaviour.
- `parse_uri_attribute` (nvd-cpe/src/lib.rs:267-288): its percent-decoding is a foreign library, and its only callers are the CPE dictionary deserialisers, which are not part of this model. The `strip_slashes` step it applies is modelled as CpeSlashes.StripSlashes.
- Language tags: `LanguageTag::parse` is a foreign library, so it is the `isTag` predicate parameter.
- `version_compare`: a foreign library, so it is `CpeMatch.VersionOracle`. `fromSign` models `Cmp::from_sign` and `compareTo` models `compare_to`.
- `Component`'s serde Deserialize: it uses the same three-way mapping as `from_str`, so it is not modelled separately.
- Serde, JSON, dates and database code around the records.
- Fields that no modelled operation reads: Match's `matchCriteriaId`, `Matches`, the status default and data versions. They are kept as plain data.
- NvdConfigurations.UniqueVendorProductAsWritten: the source's `Vec` comes from iterating a `HashSet`, whose order is unspecified. The model keeps only the multiset of products, not their order.
- ImpactMetricV3's own `from_str` (nvd-cvss/src/v3/mod.rs:292-311): it parses through CvssV3.FromStr with fixed defaults, like the v2 one that is modelled.
- Text.Upper: Rust's `str::to_uppercase` applies the full Unicode case mapping ('ſ' to 'S', 'ı' to 'I', 'ß' to "SS"); the model upper-cases ASCII letters only. So a vector such as "cvſſ:3.1/…" or a field "ſ:U", which the crates accept, is rejected here by CvssVersion.FromStr and the metric parsers. Unicode case tables are outside this model.
- CvssCommon.EscapeDebug: Rust also writes `\u{hex}` for non-ASCII characters that are not printable or are grapheme extenders (e.g. U+00AD, U+0300). Those tables are outside this model, so such characters appear unescaped in CvssCommon.DebugLetter and CvssCommon.DebugChar. All ASCII characters and the C1 controls are escaped as Rust does.
- LegacyConfigurations: the legacy Node has no `negate` field. The shared generic node keeps the field, and IsMatchIgnores shows evaluation never reads it.

## Findings

| source | as written | input that shows it | evidently intended | confidence | as-written member | corrected member |
|---|---|---|---|---|---|---|
| nvd-model/src/common/order.rs:44 | without a leading '-', `strip_prefix("-").unwrap_or_default()` makes the name empty | "name" parses to Asc with name "" | Asc with name "name" | high, not executed | Order.FromStrAsWrittenLosesName | Order.FromStrRoundTrip |
| nvd-model/src/common/order.rs:62-71 | `order_serde::deserialize` reads stored text with the same `from_str`, so an ascending key loses its name in a read and a write | the stored key "name" is written back as "" | "name" written back unchanged | high, not executed | Order.SerdeLosesName | Order.SerdeRoundTrip |
| nvd-cvss/src/v4/mod.rs:356-374 | EQ6's second branch tests VC:H without CR:H, so VC:H alone yields None and `macro_vector` turns it into level 0 | VC:H/VI:N/VA:N with CR:L | level 1: no requirement/impact pair is High/High | high, not executed | CvssV4.Eq6AsWrittenCounterexample | CvssV4.MacroVectorOf |
| nvd-cves/src/v4/configurations.rs:19-27 | `unique_vendor_product` concatenates each node's set, so a product under two nodes appears twice | two nodes reporting the same product | each product once | medium, not executed | NvdConfigurations.UniqueVendorProductDuplicates | NvdConfigurations.UniqueVendorProduct |
| nvd-cves/src/v4/configurations.rs:135-137 | the pinned-version test asks `matches("*") \|\| matches("-")`, but a "-" version has parsed to NA and NA matches nothing, so it counts as pinned | an NA version with no bounds | no "=" operator for NA, like Any | medium, not executed | NvdConfigurations.GetVersionRangeNotApplicable | NvdConfigurations.GetVersionRange |
