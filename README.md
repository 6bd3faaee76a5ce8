# nuca-backend core, modelled in Dafny

This project models the three computational parts of the nuca-backend nutrition service:

- **The personal limits calculator** (`PersonalLimitsEngine`). From a date of birth, sex, optional height and weight, activity level and five health flags it computes:
  - an estimated energy requirement (EER), clamped to 1000–3500 kcal;
  - soft and hard daily limits for sugar, sodium and saturated fat;
  - a trans-fat limit;
  - a set of diagnostic flags.

  Every value is rounded to two decimals.
- **The product grading engine** (`ProductGradingEngine`). It places sugar, sodium and saturated fat per serving in a green/yellow/orange/red zone against the person's limits. An ordered, first-match ladder over the red and orange counts, the NOVA group and the additive count then gives a grade from A to D. It also reports the number of dangerous nutrients and each nutrient's percentage of its hard limit.
- **The health-data codec** (`EncryptionService` and the two profile transformers):
  - The service derives one Fernet key from a master secret, using PBKDF2-HMAC-SHA256 with a fixed salt.
  - It wraps `encrypt`/`decrypt` so that `None` passes through, and adds helpers for booleans and floats.
  - `encrypt_profile_health_data` moves the eight sensitive fields of a profile dictionary to `<field>_encrypted`.
  - `decrypt_profile_health_data` reads them back from a stored row.

The Dafny modules follow the program:

| module | models |
|---|---|
| `Wrappers` | `Option` and `Result` |
| `Rounding` | what the model assumes of `round(x, 2)` |
| `LimitsEngine` | `app/services/limits_engine.py` |
| `GradingEngine` | `app/services/grading_engine.py` |
| `TextFormats` | the Python plaintext formats the codec relies on: `str(bool)`, `lower()`, `date.isoformat`/`fromisoformat`, `str(float)`/`float(text)` |
| `Encryption` | `app/security/encryption.py` |

The limits calculator and the grading engine are pure functions of their inputs. They are modelled as functions over exact `real`s, with lemmas for what the code promises.

The codec's service is built once and never changed, so it is a datatype holding its key.

Profile dictionaries are map values, so the copy that `encrypt_profile_health_data` starts from leaves the caller's dictionary unchanged by construction. The two profile transformers work step by step, one field after another, and each exception ends the call. They are `method`s with loops over the health flags. Each method is proved equal to a recursive specification function that handles the sensitive fields in order:
- `EncryptInOrder` for encryption;
- `DecryptFields` for decryption, where a raised exception is the `Failure` of a `Result`.

The field-by-field meaning of those functions and the round trip are lemmas.

Fernet and PBKDF2 are treated symbolically:
- A key is named by its derivation inputs.
- A ciphertext is either a token made by `FernetEncrypt`, which records the key, a nonce and the plaintext, or any other text.
- Only a token made under the same key decrypts. Any other text raises `InvalidToken`.
- The per-call randomness of Fernet (IV and timestamp) is a parameter: `nonce`, or `iv` per field.

## Model

| member | source | states |
|---|---|---|
| LimitsEngine.CalculateAge | app/services/limits_engine.py:41-45 | `int(days / 365.25)` truncates toward zero: for a birth date in the past, 0 <= age <= days/365.25 < age + 1; for one in the future, the mirror-image bound with age <= 0 |
| LimitsEngine.DefaultHeight | app/services/limits_engine.py:47-54 | every default height lies in the 50–250 cm range the schema allows for a supplied height |
| LimitsEngine.DefaultWeight | app/services/limits_engine.py:56-63 | every default weight lies in the 10–300 kg range the schema allows for a supplied weight |
| LimitsEngine.PaCoefficient | app/services/limits_engine.py:26-39 | every coefficient lies in [1.0, 1.48]; sedentary is 1.0 for both sexes; a sex without a table row takes the fallback 1.0 |
| LimitsEngine.EerAdultMonotone | app/services/limits_engine.py:65-76 | for either formula, more weight, more height and a larger activity coefficient never lower the adult EER, and a greater age never raises it |
| LimitsEngine.EerChild | app/services/limits_engine.py:78-91 | the child EER is one of the eight bracket values; outside ages 3–13 it is 1400 |
| LimitsEngine.ClampEer | app/services/limits_engine.py:132 | the clamped EER lies in [1000, 3500] and equals the input whenever the input is already in range |
| LimitsEngine.Bmi | app/services/limits_engine.py:114-115 | the BMI times the square of the height in metres is the weight, and a positive weight gives a positive BMI |
| LimitsEngine.Eer | app/services/limits_engine.py:123-132 | after the child/adult choice, the +340 pregnancy supplement and the clamp, the EER lies in [1000, 3500] |
| LimitsEngine.SugarLimits | app/services/limits_engine.py:134-142 | both sugar limits are positive and soft <= hard; the soft limit is at least 5% of the EER / 4 |
| LimitsEngine.SodiumLimits | app/services/limits_engine.py:144-161 | both sodium limits are positive and soft <= hard, in all four child/risk combinations; the soft limit is never below 562.5 mg |
| LimitsEngine.SatFatLimits | app/services/limits_engine.py:163-171 | both saturated-fat limits are positive and soft <= hard; the soft limit is at least 6% of the EER / 9 |
| LimitsEngine.RawLimits | app/services/limits_engine.py:93-183 | for any date of birth, before rounding: the EER lies in [1000, 3500]; every soft limit is positive and at most its hard limit; sugar soft >= 12.5 g, sodium soft >= 562.5 mg, saturated fat soft >= 6 g, trans fat >= 1 g; the age flag is `calculate_age`, and is not negative unless the birth date is in the future; the BMI flag is weight / height² of the height and weight in effect after the defaults; `is_child` holds iff age < 18; each risk flag holds iff its defining disjunction does, glucose risk iff diabetes or that BMI >= 30 |
| LimitsEngine.RoundLimits | app/services/limits_engine.py:181-195 | every flag but the BMI is copied unchanged; for a monotone rounding that fixes whole numbers, each soft <= hard ordering and every whole-number bound on the EER survive |
| LimitsEngine.ComputePersonalLimits | app/services/limits_engine.py:93-195 | for any monotone rounding that fixes whole numbers: the rounded EER stays in [1000, 3500]; every rounded limit is positive (sugar soft >= 12 g, sodium soft >= 562 mg, saturated fat soft >= 6 g, trans fat >= 1 g) and each soft limit stays at most its hard limit; the BMI flag is the rounded BMI of the effective height and weight; glucose risk holds iff diabetes or the unrounded BMI >= 30, so a glucose risk from the BMI alone shows a BMI flag >= 30 and no glucose risk a BMI flag <= 30 (a BMI of 29.996 is shown as 30.00 without the risk); the age, child, cardiovascular, hypertension and pregnancy flags keep their meaning |
| LimitsEngine.SugarRangeCollapsesIffGlucoseRisk | app/services/limits_engine.py:134-142 | hard == soft for sugar exactly when there is glucose risk; the hard limit is 5% of the EER / 4 under risk and 10% otherwise |
| LimitsEngine.AdultSodiumIsFixed | app/services/limits_engine.py:148-161 | non-children get exactly 1500/1200 mg under hypertension or cardiovascular risk and 2000/1500 mg otherwise |
| LimitsEngine.ChildSodiumIsScaledDown | app/services/limits_engine.py:144-158 | children's sodium limits lie in [750, 2000] and [562.5, 1500] mg; under risk they are at most 1500 and 1125 mg |
| LimitsEngine.SatFatTightensIffRisk | app/services/limits_engine.py:163-171 | the saturated-fat limits are 7%/6% of the EER / 9 exactly when there is cardiovascular or glucose risk |
| LimitsEngine.ChildBracketBelow14 | app/services/limits_engine.py:123-124 | below age 14 and without pregnancy the EER is one of the eight bracket values, and 1400 below age 3 |
| LimitsEngine.AdultFormulaFrom14 | app/services/limits_engine.py:117-132 | from age 14 the EER is the clamped adult formula plus the pregnancy supplement, while ages 14–17 still count as children |
| LimitsEngine.NonMaleTakesFemaleBranches | app/services/limits_engine.py:73-89 | every sex other than male gets the female adult formula and the female child brackets |
| LimitsEngine.DefaultHeightOnlyWhenAbsent | app/services/limits_engine.py:109-110 | omitting the height gives the same limits as supplying the default height for that age and sex |
| LimitsEngine.DefaultWeightOnlyWhenAbsent | app/services/limits_engine.py:111-112 | omitting the weight gives the same limits as supplying the default weight for that age and sex |
| LimitsEngine.RawLimitsSeeEffectiveBody | app/services/limits_engine.py:107-115 | two inputs that differ only in height and weight, but agree on the values in effect after the defaults, get the same limits |
| LimitsEngine.ChildDefaultsIgnoreSex | app/services/limits_engine.py:47-63 | under 14 the defaults are 140 cm and 35 kg whatever the sex |
| LimitsEngine.WorkedExampleAdultMale | app/services/limits_engine.py:66-76 | male, 30 years, sedentary, 175 cm, 75 kg: EER 2513.65 kcal, sugar hard limit 62.84125 g, sodium 2000 mg, saturated fat 251.365/9 g |
| LimitsEngine.RoundedAdultSodiumIsFixed | app/services/limits_engine.py:148-190 | the fixed adult sodium pairs survive `round(·, 2)` unchanged |
| GradingEngine.CalculateNutrientZone | app/services/grading_engine.py:14-33 | a missing value or a non-positive soft limit is green; with a positive soft limit and a non-positive hard limit the zone is green below a quarter of the soft limit and yellow otherwise |
| GradingEngine.Count | app/services/grading_engine.py:47-48 | `zones.count(z)` never exceeds the number of zones |
| GradingEngine.CountDangerous | app/services/grading_engine.py:107-110 | the dangerous count never exceeds the number of zones |
| GradingEngine.CalculateGrade | app/services/grading_engine.py:35-68 | the first-match ladder, read grade by grade and in both directions: D iff r >= 2 or (r == 1 and (NOVA 4 or >= 5 additives)); C iff (r == 1 without NOVA 4 and with < 5 additives) or (r == 0 and o >= 2); B iff r == 0 and (o == 1 or (o == 0, NOVA 4 and >= 3 additives)); A otherwise |
| GradingEngine.PctOfLimit | app/services/grading_engine.py:112-114 | the percentage is 0 when the value is missing or 0, or the hard limit is 0; otherwise pct * limit == value * 100 (also for a negative limit) |
| GradingEngine.GradeProduct | app/services/grading_engine.py:70-127 | each zone is `calculate_nutrient_zone` of its nutrient and limits; the grade is `calculate_grade` of the three zones, the additives and the NOVA group; the dangerous count is `CountDangerous` of the zones, i.e. orange plus red, at most 3, and any dangerous nutrient rules out A; each percentage is the rounded `PctOfLimit`, 0 for a missing or 0 value or a 0 hard limit; additive count and NOVA group are echoed |
| GradingEngine.PctBelowIff | app/services/grading_engine.py:23-24 | against a positive limit, pct < t iff value * 100 < t * limit |
| GradingEngine.ZoneThresholds | app/services/grading_engine.py:23-33 | for positive limits, each of the four zones holds iff the value lies in its band: soft/4, hard/2, 3·hard/4 |
| GradingEngine.ZoneBoundaryExamples | app/services/grading_engine.py:26-33 | with soft 50 and hard 100, the values 10, 13, 60 and 80 are green, yellow, orange and red |
| GradingEngine.PctOfMonotone | app/services/grading_engine.py:23-24 | a percentage of a fixed limit never decreases as the value grows |
| GradingEngine.ZoneMonotone | app/services/grading_engine.py:14-33 | for any fixed limits, a larger value never gets a less severe zone |
| GradingEngine.ZeroMeasurementIsGreen | app/services/grading_engine.py:20-27 | a measured 0 gets the same zone as a missing value |
| GradingEngine.CountIsMultiplicity | app/services/grading_engine.py:47-48 | `zones.count(z)` is the multiplicity of z in the zones |
| GradingEngine.DangerousIsOrangePlusRed | app/services/grading_engine.py:107-110 | the dangerous count is the orange count plus the red count |
| GradingEngine.GradePermutationInvariant | app/services/grading_engine.py:45-68 | permuting the three zones never changes the grade |
| GradingEngine.CountsDetermineGrade | app/services/grading_engine.py:47-68 | two zone triples with the same red and orange counts get the same grade |
| GradingEngine.GradeIgnoresFiberAndProtein | app/services/grading_engine.py:35-44 | the fibre and protein arguments never influence the grade |
| GradingEngine.GradeExamples | app/services/grading_engine.py:53-68 | red/red/green is D; one orange is B; all green with NOVA 4 and 3 additives is B; all green otherwise clean is A |
| GradingEngine.CountsMonotone | app/services/grading_engine.py:47-48 | pointwise more severe zones have at least as many red and as many dangerous zones |
| GradingEngine.GradeMonotone | app/services/grading_engine.py:45-68 | pointwise worse zones and more additives never give a better grade |
| GradingEngine.GradeMonotoneInCounts | app/services/grading_engine.py:53-68 | more red zones, more dangerous zones and more additives never give a better grade |
| GradingEngine.DangerousRulesOutA | app/services/grading_engine.py:59-68 | one orange or red zone rules out grade A |
| TextFormats.Lower | app/security/encryption.py:49 | `lower()` keeps the length, leaves no capital A–Z, turns each capital into its small letter and keeps every other character |
| TextFormats.LowerIdempotent | app/security/encryption.py:49 | lower-casing twice is lower-casing once |
| TextFormats.BoolTextRoundTrip | app/security/encryption.py:40-49 | `str(b).lower() == "true"` gives back b |
| TextFormats.ParseBoolIsCaseInsensitiveTrue | app/security/encryption.py:45-49 | the boolean test holds exactly for the four-letter spellings of "true" in any mix of cases |
| TextFormats.FromIsoFormat | app/security/encryption.py:119-120 | a date that `fromisoformat` accepts is a valid calendar date whose `isoformat` is the input text |
| TextFormats.IsoFormatRoundTrip | app/security/encryption.py:74-77 | every valid date survives `isoformat` followed by `fromisoformat` |
| TextFormats.ParseDecimal | app/security/encryption.py:56-60 | a text that `float` accepts gives a number with at least one fraction digit |
| TextFormats.DecimalTextRoundTrip | app/security/encryption.py:51-60 | every float written by `str` without an exponent survives `float(str(x))` |
| Encryption.FernetDecrypt | app/security/encryption.py:35-38 | decryption succeeds iff the text is a token made under this key, and gives back its plaintext; any failure is `InvalidToken` |
| Encryption.EncryptionService.Encrypt | app/security/encryption.py:30-33 | None passes through; otherwise the result decrypts under the same key to the input |
| Encryption.EncryptionService.Decrypt | app/security/encryption.py:35-38 | None passes through; otherwise success iff the text is a token of this service's key, with its plaintext; any failure is `InvalidToken` |
| Encryption.EncryptionService.EncryptBoolean | app/security/encryption.py:40-43 | None passes through; `decrypt_boolean` gives back exactly the input |
| Encryption.EncryptionService.DecryptBoolean | app/security/encryption.py:45-49 | None passes through; it succeeds exactly when `decrypt` does, with `plaintext.lower() == "true"` of the decrypted text; any failure is `InvalidToken` |
| Encryption.EncryptionService.EncryptDecimal | app/security/encryption.py:51-54 | None passes through; `decrypt_decimal` gives back every float `str` writes |
| Encryption.EncryptionService.DecryptDecimal | app/security/encryption.py:56-60 | None passes through; a success holds `float` of the decrypted text; a cipher failure is `InvalidToken`; after a successful decryption, it fails exactly when `float` refuses the plaintext, and then with `ValueError` |
| Encryption.NewEncryptionService | app/security/encryption.py:11-28 | the key is PBKDF2-HMAC-SHA256 of the secret with the fixed salt `nuca-v1-fixed-salt`, 390000 iterations and 32 bytes; the new service decrypts everything it encrypts |
| Encryption.EncryptedKeyDistinct | app/security/encryption.py:102 | different fields get different `_encrypted` names |
| Encryption.EncryptedKeyNotSensitive | app/security/encryption.py:102 | no `_encrypted` name is itself a sensitive field |
| Encryption.DecodeField | app/security/encryption.py:119-145 | a cipher failure is `InvalidToken`; after a successful `decrypt` of plaintext p: the date of birth is `Day(fromisoformat(p))`, or `ValueError` exactly when `fromisoformat` refuses p; height and weight are `float(p)`, or `ValueError` exactly when `float` refuses p; a flag is `p.lower() == "true"` and never fails |
| Encryption.FieldRoundTrip | app/security/encryption.py:74-105 | each sensitive field's encoding (isoformat, `str(float)`, `str(bool)`) decodes back to its value |
| Encryption.InOrderAtField | app/security/encryption.py:72-105 | after any number of steps, a sensitive field is gone iff it has been encrypted; otherwise it is untouched |
| Encryption.InOrderAtEncryptedName | app/security/encryption.py:72-105 | after any number of steps, an encrypted field's `_encrypted` name holds its ciphertext; otherwise that name is untouched |
| Encryption.InOrderOther | app/security/encryption.py:72-105 | keys that are neither sensitive fields nor their `_encrypted` names are never touched |
| Encryption.EncryptProfileHealthData | app/security/encryption.py:71-107 | the loop-and-delete method produces exactly the in-order specification of all eight fields |
| Encryption.FailureIsFinal | app/security/encryption.py:110-147 | once a field has raised, the call ends with that exception |
| Encryption.DecryptDateOfBirth | app/security/encryption.py:113-120 | the date-of-birth block performs exactly one specification step: decrypt, then `fromisoformat` |
| Encryption.DecryptMeasurement | app/security/encryption.py:122-130 | the height and weight blocks perform exactly one specification step with `decrypt_decimal` |
| Encryption.DecryptFlag | app/security/encryption.py:140-145 | one turn of the flag loop performs exactly one specification step with `decrypt_boolean` |
| Encryption.DecryptProfileHealthData | app/security/encryption.py:110-147 | the method, with its early exits, produces exactly the in-order specification |
| Encryption.DecryptFieldsMeaning | app/security/encryption.py:110-147 | success iff every present field decodes; the result then holds exactly the present fields, each with its decoded value |
| Encryption.OneBadFieldFailsAll | app/security/encryption.py:110-147 | one field that fails to decode makes the whole call fail |
| Encryption.EncryptedProfileAt | app/security/encryption.py:71-107 | a field that passes its gate is replaced by its ciphertext under `_encrypted`; otherwise the field and its `_encrypted` name are unchanged |
| Encryption.NonSensitivePassThrough | app/security/encryption.py:71-107 | every other key of the dictionary is copied unchanged |
| Encryption.EncryptedProfileWellStored | app/security/encryption.py:71-107 | every `_encrypted` entry of an encrypted profile is text or a token, as a stored row has |
| Encryption.EncryptThenDecrypt | app/security/encryption.py:71-147 | decrypting an encrypted profile with the same service gives back exactly the fields that were encrypted |
| Encryption.DecryptsTo | app/security/encryption.py:110-147 | a row whose present fields decode to the entries of a map decrypts to that map |
| Encryption.EncryptedFieldDecodes | app/security/encryption.py:71-147 | a field of an encrypted profile is present iff it was encrypted, and it then decodes to its original value |
| Encryption.SameSecretInterop | app/security/encryption.py:11-28 | two services built from the same secret read each other's profiles |
| Encryption.ForeignKeyRejected | app/security/encryption.py:11-38 | a service with another key fails with `InvalidToken` on any profile with an encrypted field |
| Encryption.DecryptErrorIsInvalidToken | app/security/encryption.py:110-147 | if every present field fails the cipher, the only error raised is `InvalidToken` |
| Encryption.GatingAsymmetry | app/security/encryption.py:74-105 | a falsy date of birth stays in plain text, while a health flag set to False is still encrypted |
| Encryption.FreshNoncesDistinctTokens | app/security/encryption.py:30-38 | the same plaintext encrypted twice under two different nonces (Fernet draws a fresh IV per call) gives different tokens, and both decrypt to it |

## Left out

- `hash_pii` (app/security/encryption.py:62-65): SHA-256 is a foreign hash and no other part of the core uses it.
- Fernet (AES-128-CBC with HMAC-SHA256, base64 tokens) and PBKDF2-HMAC-SHA256 are modelled symbolically. Key bytes, token bytes, UTF-8 encoding and the token timestamp are not modelled.
- Fernet's randomness is a parameter: `nonce`, or `iv` per field.
- The module-level `encryption_service` instance and `settings.encryption_key` are an explicit service parameter.
- `date.today()` is a parameter (`today`). Dates in the calculator are day numbers.
- Floating point is not modelled. All arithmetic is exact, and `round(x, 2)` is any function that is monotone and fixes whole numbers.
- TextFormats.ParseDecimal: accepts only the `[-]digits.digits` form. Python's `float()` also accepts texts that this model refuses with a `ValueError`: integers such as `170`, a leading `+` (`+1.5`), no whole digits (`.5`), no fraction digits (`5.`), exponents (`1e+16`), surrounding whitespace, underscores, `inf` and `nan`. Of these, `str(float)` itself writes the exponent forms and `inf`/`nan`.
- TextFormats.FromIsoFormat: accepts only the `YYYY-MM-DD` form. The other forms newer Pythons accept (`YYYYMMDD`, week dates) are refused.
- TextFormats.Lower: folds only `A`–`Z`. Other Unicode case mappings are left out.
- Encryption.EncryptionService.EncryptDecimal: the round trip is stated for numbers written as `[-]digits.digits` with at least one fraction digit. This is how `str(float)` writes floats of moderate size. Very large or very small floats (`str(1e16) == '1e+16'`), `inf`, `nan` and Python integers stored in the float columns (`str(170) == '170'`) are not modelled.
- TextFormats.DecimalTextRoundTrip: a `Decimal` may carry trailing fraction zeros (`1.50`) that `str(float)` never writes. The round trip holds for them too, so the model admits more texts than Python produces.
- Encryption.EncryptProfileHealthData: requires each encrypted field to have the type the profile schemas give it (app/schemas.py:31-40): a date, a float or a bool. For the date of birth, a value of another type would raise `AttributeError` at `.isoformat()`. Height, weight and the flags go through `str(value)`, which accepts any type, so a wrongly typed value there would be stored as its text. Neither path is modelled.
- Encryption.DecryptProfileHealthData: requires every `_encrypted` column to hold text, a token or nothing, as the database schema makes it. The `hasattr`/`getattr` lookups on the ORM row are membership in a map.
- Encryption.DecryptProfileHealthData: the three leading blocks and the body of the flag loop are split into helper methods (`DecryptDateOfBirth`, `DecryptMeasurement`, `DecryptFlag`), each proved against one step of the specification.
- The routers, ORM models, database and migrations are not part of this model.
