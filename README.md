# envSetter core in Dafny

`BackEnd/envSetter.py` is an interactive script that asks for the settings
of the class-registration back end and writes them to a `.env` file. This
project models its core and proves properties of it:

- **Field validators** (`validators.dfy`, module `Validators`):
  - `validate_email`, `validate_port` and `validate_url`.
  - The lambdas `main` attaches to fields: JWT secret length, `NODE_ENV`
    membership, the bcrypt round range and digit-only rate limits.
  - Each regular expression is written out as a scan over characters.
  - The Python built-ins they rely on (`str.strip`, `str.lower`,
    `str.isdigit`, `int` in base 10) are in `pytext.dfy` (module `PyText`).
- **Prompt loops** (`prompts.dfy`, module `Prompts`):
  - `get_input` and `get_yes_no` are methods with `while` loops over a
    sequence of scripted input lines.
  - Each returns the accepted value and the number of lines it read.
  - Each is proved equal to a recursive function (`ReadInput`,
    `ReadYesNo`), and that function is characterised by lemmas.
- **`.env` renderer** (`envfile.dfy`, module `EnvFile`):
  - The `config` dictionary is a record. The block of `f.write` calls is a
    function from that record to a list of sections, then to lines, then to
    text.
  - As a partner, a reader for the same format is proved to invert the
    renderer.
- **The session** (`setup.dfy`, module `Setup`):
  - `main` from the overwrite question to the written text. The function
    `Session` states the outcome; a method fills the record key by key.
  - Proved properties: when the run cancels, the validity of what is
    written, that the written file reads back, and that accepting every
    default reads one line per question.

Standard input is a `seq<string>` of lines without terminators. Where
Python's `input()` would raise `EOFError` because the lines ran out, the
model returns `None` (`InputExhausted` for a whole session). The existence
of `.env` and the value `secrets.token_hex(32)` would return are
parameters.

Both AWS keys (`AWS_ACCESS_KEY_ID`, `AWS_SECRET_ACCESS_KEY`) are asked with
no default and no validator, so an empty line is accepted and an empty key
is written (`Setup.AwsDefaults`).

`int()` is CPython's: it refuses a decimal string of more than 4300 digits
(the default `sys.get_int_max_str_digits()`, in force from 3.11 and in the
3.7.14, 3.8.14, 3.9.14 and 3.10.7 security releases), counting leading
zeros and not underscores.

## Model

| member | source | states |
|---|---|---|
| PyText.StripSpec | BackEnd/envSetter.py:43 | `strip()` leaves an infix of the line that neither starts nor ends with whitespace, and everything it removed on either side is whitespace |
| PyText.StripKeeps | BackEnd/envSetter.py:47 | every non-whitespace character of the line survives `strip()` |
| PyText.StripBlank | BackEnd/envSetter.py:44 | a line made only of whitespace strips to the empty string, so `not user_input` holds for it |
| PyText.DigitsParse | BackEnd/envSetter.py:168 | on a string that passes `isdigit()` (ASCII), `int()` returns its decimal value when it has at most 4300 digits and raises `ValueError` when it has more |
| PyText.PyIntDecimal | BackEnd/envSetter.py:27 | `int(str(n)) == n` for every natural number `n` whose spelling has at most 4300 digits (where `str(n)` itself succeeds) |
| PyText.PyIntSeparator | BackEnd/envSetter.py:26-30 | one of the separators `\x1c`..`\x1f` anywhere in the string, even at either end, makes `int()` raise, although `strip()` removes them |
| PyText.PyIntRejects | BackEnd/envSetter.py:26-30 | a character other than whitespace, a digit, a sign or `_` makes `int()` raise `ValueError` |
| Validators.EmailScan | BackEnd/envSetter.py:18-21 | the character scan accepts a string iff it splits as the pattern says: a non-empty local part over `[A-Za-z0-9._%+-]`, `@`, a domain over `[A-Za-z0-9.-]`, a dot, two or more letters (both directions) |
| Validators.EmailScanSound | BackEnd/envSetter.py:18-21 | every string the scan accepts splits as the pattern describes |
| Validators.EmailScanComplete | BackEnd/envSetter.py:18-21 | every string that splits as the pattern describes is accepted by the scan |
| Validators.EmailOneAt | BackEnd/envSetter.py:18-21 | every accepted address holds exactly one `@`, after a non-empty local part, so a string without `@` is rejected |
| Validators.PortDigits | BackEnd/envSetter.py:24-30 | an ASCII digit string is a valid port iff it has at most 4300 digits and its value lies in 1..65535 |
| Validators.PortNumbers | BackEnd/envSetter.py:24-30 | the decimal spelling of `n` is accepted iff 1 <= n <= 65535 |
| Validators.PortRejectsText | BackEnd/envSetter.py:26-30 | text `int()` cannot parse is rejected (False), not raised |
| Validators.PortRange | BackEnd/envSetter.py:27-28 | "8080" is accepted; "99999" and "0" are rejected |
| Validators.PortBlank | BackEnd/envSetter.py:26-30 | "", blanks and "abc" are rejected rather than raising |
| Validators.PortSign | BackEnd/envSetter.py:27-28 | a leading `+` keeps the verdict; a negated number is never a port |
| Validators.PortLeadingZero | BackEnd/envSetter.py:27-30 | one more leading zero keeps the verdict, except that it takes a 4300-digit string over `int()`'s limit, where the port is rejected |
| Validators.PortUnderscore | BackEnd/envSetter.py:27-28 | one `_` between digit groups is ignored by `int()`, so `a_b` is judged as `ab` |
| Validators.UrlAccepts | BackEnd/envSetter.py:33-36 | `http://` or `https://` followed by a non-empty body without whitespace is accepted, also with the one final newline `$` tolerates |
| Validators.UrlShape | BackEnd/envSetter.py:33-36 | an accepted URL starts with `http://` or `https://`, has a non-empty body, and its only possible whitespace is one final newline |
| Validators.UrlStripped | BackEnd/envSetter.py:35-36 | on a stripped value, the only kind `get_input` validates, acceptance is exactly the pattern without the newline allowance |
| Validators.PlainHttpUrl | BackEnd/envSetter.py:33-36 | `http://` followed by printable ASCII characters other than the space is accepted |
| Validators.SaltRoundsValue | BackEnd/envSetter.py:168 | salt rounds are accepted iff the string is all digits, at most 4300 of them, with value in 10..20 |
| Validators.SaltRoundsRaises | BackEnd/envSetter.py:168 | the lambda's `int()` raises exactly on a digit string of more than 4300 digits; the model refuses that value |
| Validators.SaltRoundsNumbers | BackEnd/envSetter.py:168 | the decimal spelling of `n` is accepted iff 10 <= n <= 20 |
| Validators.RateLimitValue | BackEnd/envSetter.py:174-186 | an accepted rate limit is a decimal number, possibly with leading zeros, that `int()` reads back when it has at most 4300 digits; "", "-1" and " 5" are refused |
| Validators.NodeEnvNames | BackEnd/envSetter.py:145 | `development`, `production` and `test` are accepted; other names, the empty string and other capitalisations are refused |
| Validators.DefaultPortPasses | BackEnd/envSetter.py:148-152 | the default port "3000" passes `validate_port` |
| Validators.DefaultSaltRoundsPass | BackEnd/envSetter.py:165-169 | the default "14" passes the salt-rounds lambda |
| Validators.DefaultFrontendUrlPasses | BackEnd/envSetter.py:154-158 | the default frontend URL passes `validate_url` |
| Validators.DefaultEndpointPasses | BackEnd/envSetter.py:205-209 | the default DynamoDB endpoint passes `validate_url` |
| Prompts.ReadInputAt | BackEnd/envSetter.py:41-53 | when line `k` is the first whose value the validator accepts, `get_input` returns that value after reading `k + 1` lines |
| Prompts.ReadInputNone | BackEnd/envSetter.py:41-51 | when the validator refuses every line, the loop never returns (input runs out) |
| Prompts.ReadInputFound | BackEnd/envSetter.py:41-53 | an answer passes the validator, is the value of the last line read, and every earlier line was refused |
| Prompts.ReadInputMissing | BackEnd/envSetter.py:41-51 | when `get_input` never returns, every line was refused |
| Prompts.ReadInputSpec | BackEnd/envSetter.py:39-53 | the result passes the validator, is the value of the last line read, every earlier line was refused, and there is no result iff every line is refused |
| Prompts.GetInput | BackEnd/envSetter.py:39-53 | the loop returns exactly `ReadInput`'s result: the first accepted value (default substituted for a blank line when the default is non-empty) and the lines read |
| Prompts.ReadYesNoAt | BackEnd/envSetter.py:58-65 | the first line that reads as yes or no decides the answer, after reading exactly the lines up to it |
| Prompts.ReadYesNoNone | BackEnd/envSetter.py:58-66 | when no line is a yes or a no, the loop never returns |
| Prompts.GetYesNo | BackEnd/envSetter.py:56-66 | the loop returns exactly `ReadYesNo`'s result; every line before the answering one was neither yes nor no |
| Prompts.DefaultOnBlank | BackEnd/envSetter.py:42-45 | with a non-empty default the validator accepts, a blank line is answered by the default after one read |
| Prompts.NoDefaultTakesFirst | BackEnd/envSetter.py:46-53 | with neither default nor validator, the first line is returned stripped, even when empty |
| Prompts.YesNoDefault | BackEnd/envSetter.py:59-61 | a blank response is replaced by the default before it is judged |
| Prompts.YesNoIgnoresCase | BackEnd/envSetter.py:59-65 | `" YES "` is a yes and `"No"` is a no: responses are stripped and lower-cased |
| Prompts.YesNoRefuses | BackEnd/envSetter.py:59-66 | every non-blank response that is not y, yes, n or no in any case is refused, and `get_yes_no` answers as on the lines after it, one line later |
| Prompts.PortReprompt | BackEnd/envSetter.py:148-152 | the port prompt refuses "99999", reads again and accepts "8080" after two lines |
| EnvFile.SplitJoin | BackEnd/envSetter.py:218-252 | lines without line breaks, each written followed by `\n`, split back into the same lines |
| EnvFile.FirstLine | BackEnd/envSetter.py:218-219 | a line without line breaks, written with its `\n`, is read back up to that newline and the rest follows it |
| EnvFile.EntryParse | BackEnd/envSetter.py:219 | a `KEY=value` line reads back as its key and value, whatever the value holds, because a key holds no `=` |
| EnvFile.SectionsRead | BackEnd/envSetter.py:217-252 | reading the lines of well-formed sections gives back their assignments and their headers, in order |
| EnvFile.SectionSeparated | BackEnd/envSetter.py:218-224 | a written section is its header, lines that are not comments, and a blank line |
| EnvFile.SectionsSeparated | BackEnd/envSetter.py:224-252 | every section ends with a blank line and every header but the first directly follows one |
| EnvFile.ConfigWellFormed | BackEnd/envSetter.py:218-251 | every header the script writes is a one-line comment and every key is a key (no `=`, no `#` first, no line break) |
| EnvFile.FieldsRead | BackEnd/envSetter.py:219-251 | the fields of a record, in the written key order, read back as that record |
| EnvFile.ConfigEntries | BackEnd/envSetter.py:219-251 | the assignments of the written sections are the 16 keys in their fixed order, plus `DYNAMODB_ENDPOINT` last only with an endpoint |
| EnvFile.RenderAssignments | BackEnd/envSetter.py:219-251 | the assignment lines of the file are the keys in their fixed order, each with its field's value |
| EnvFile.ConfigHeaders | BackEnd/envSetter.py:218-250 | the section headers are JWT, AWS, Application, Security, CORS, then Database only with an endpoint |
| EnvFile.RenderHeaders | BackEnd/envSetter.py:218-250 | the comment lines of the file are the five section headers in order, then the Database header iff the endpoint is non-empty |
| EnvFile.RenderSeparated | BackEnd/envSetter.py:218-252 | the file starts with the JWT header, ends with a blank line, and every other header follows a blank line |
| EnvFile.RoundTrip | BackEnd/envSetter.py:217-252 | for a record without line breaks, reading the written text gives the record back, the endpoint included |
| EnvFile.DatabaseHeaderIff | BackEnd/envSetter.py:249-252 | `# Database Configuration` is a line of the file iff the endpoint is non-empty |
| EnvFile.DatabaseOnlyAddition | BackEnd/envSetter.py:249-252 | the text for a record is the text for the same record with an empty endpoint, plus the three Database lines iff the endpoint is non-empty; nothing else changes |
| Setup.Ask | BackEnd/envSetter.py:39-53 | one `get_input` call from line `p`: the answer passes the validator, is the value of the last line read, and at least one line is read |
| Setup.AskYesNo | BackEnd/envSetter.py:56-66 | one `get_yes_no` call from line `p` reads at least one line and no more than there are |
| Setup.AskJwt | BackEnd/envSetter.py:90-117 | the JWT questions set only the five JWT keys; a typed secret passes the 32-character check, otherwise it is the generated one |
| Setup.AskAws | BackEnd/envSetter.py:124-135 | the AWS questions set only the three AWS keys |
| Setup.AskApplication | BackEnd/envSetter.py:142-158 | the application questions set only their three keys, each passing its validator |
| Setup.AskSecurity | BackEnd/envSetter.py:165-187 | the security questions set only their four keys, each passing its validator |
| Setup.AskCors | BackEnd/envSetter.py:194-197 | the CORS question sets only `ALLOWED_ORIGINS` |
| Setup.AskDatabase | BackEnd/envSetter.py:204-211 | the database questions set only the endpoint, which is empty or a URL `validate_url` accepts |
| Setup.DatabaseAnswer | BackEnd/envSetter.py:204-211 | a no, typed or taken as the default, leaves the endpoint empty after that one line; after a yes the endpoint is a non-empty URL `validate_url` accepts |
| Setup.Collect | BackEnd/envSetter.py:84-211 | filling the record from the empty dictionary reads at least one line and no more lines than given |
| Setup.CollectValid | BackEnd/envSetter.py:84-211 | a record filled by the questions has every validated field passing its validator, the endpoint only when one is given |
| Setup.Prompt | BackEnd/envSetter.py:39-53 | calling `get_input` on the unread lines is the function `Ask` |
| Setup.PromptYesNo | BackEnd/envSetter.py:56-66 | calling `get_yes_no` on the unread lines is the function `AskYesNo` |
| Setup.RunJwt | BackEnd/envSetter.py:90-117 | the JWT part of `main`, setting one key per answer, equals `AskJwt` |
| Setup.RunAws | BackEnd/envSetter.py:124-135 | the AWS part of `main` equals `AskAws` |
| Setup.RunApplication | BackEnd/envSetter.py:142-158 | the application part of `main` equals `AskApplication` |
| Setup.RunSecurity | BackEnd/envSetter.py:165-187 | the security part of `main` equals `AskSecurity` |
| Setup.RunCors | BackEnd/envSetter.py:194-197 | the CORS part of `main` equals `AskCors` |
| Setup.RunDatabase | BackEnd/envSetter.py:204-211 | the database part of `main` equals `AskDatabase` |
| Setup.RunSetup | BackEnd/envSetter.py:69-252 | `main` (overwrite question, every section) ends as the function `Session` says, and writes the rendering of the record exactly when the run completes |
| Setup.CancelIff | BackEnd/envSetter.py:77-81 | a run is cancelled iff `.env` exists and the overwrite question is answered no; without `.env` nothing is cancelled |
| Setup.CancelOnNo | BackEnd/envSetter.py:77-81 | with `.env` present, a blank line or a no cancels after one line and nothing is written |
| Setup.WrittenValid | BackEnd/envSetter.py:84-252 | a written record passes every validator `main` attaches, and no more lines were read than given |
| Setup.WrittenSecretLength | BackEnd/envSetter.py:13-15 | with a 64-digit generated token, the written JWT secret always has at least 32 characters, generated or typed |
| Setup.InputValueSingle | BackEnd/envSetter.py:43-47 | neither stripping nor substituting a default introduces a line break |
| Setup.CollectSingle | BackEnd/envSetter.py:84-211 | answers from lines without line breaks fill a record without line breaks |
| Setup.WrittenReadsBack | BackEnd/envSetter.py:217-252 | the text a completed run writes reads back as the record its answers filled, when no input line holds a line break |
| Setup.AskDefault | BackEnd/envSetter.py:42-47 | a blank answer to a question whose validator accepts the default yields the default after one line |
| Setup.AskYesNoDefault | BackEnd/envSetter.py:59-65 | a blank answer to a yes/no question yields its default after one line |
| Setup.JwtDefaults | BackEnd/envSetter.py:90-117 | five blank lines generate the secret and take the four JWT defaults |
| Setup.AwsDefaults | BackEnd/envSetter.py:124-135 | three blank lines give empty AWS keys and the default region |
| Setup.ApplicationDefaults | BackEnd/envSetter.py:142-158 | three blank lines take the application defaults, each passing its validator |
| Setup.SecurityDefaults | BackEnd/envSetter.py:165-187 | four blank lines take the security defaults, each passing its validator |
| Setup.CorsDefaults | BackEnd/envSetter.py:194-197 | one blank line takes the default origins |
| Setup.DatabaseDefaults | BackEnd/envSetter.py:204-211 | one blank line declines the local DynamoDB and leaves the endpoint empty |
| Setup.CollectDefaults | BackEnd/envSetter.py:99-211 | seventeen blank lines yield the default record after exactly seventeen lines |
| Setup.AllDefaults | BackEnd/envSetter.py:90-211 | without `.env`, seventeen blank lines write the defaults with the generated secret, one line per question |
| Setup.OverwriteAllDefaults | BackEnd/envSetter.py:77-211 | with `.env`, a yes and seventeen blank lines write the same file after eighteen lines |

## Left out

- File-system I/O is not modelled: `Path(__file__).parent`, `env_path.exists()`, `open` and `f.write`. The existence check is a boolean parameter and the file's content is the returned text.
- The exception handler around the write and the exit status of `main` are not modelled, because nothing in the model can fail to write.
- `generate_jwt_secret` is a call into the operating system's random source. It is a parameter of the session; only the lemmas that need it assume it is 64 lower-case hexadecimal digits.
- Console output is not modelled: banners, prompt texts, the error messages and the 16-character echo of the secret.
- `str.lower()` is modelled for ASCII letters only, because other Unicode case mappings are out of scope.
- `str.isdigit()` and `int()` are modelled for ASCII digits only. Superscripts and other Unicode digits are not modelled. `int()`'s sign, leading zeros, single underscores, digit limit and whitespace (Python's whitespace except the separators `\x1c`..`\x1f`) are modelled.
- The digit limit is the default one. A limit changed through `PYTHONINTMAXSTRDIGITS`, `-X int_max_str_digits` or `sys.set_int_max_str_digits` is not modelled.
- SaltRoundsValue: on a digit string of more than 4300 digits the source's lambda lets `int()`'s `ValueError` escape `get_input`, and `main` ends with a traceback. The model refuses the value and reads the next line instead (`SaltRoundsRaises` states where this happens). The session has no outcome for this crash, because only this one field can raise that way.
- The regular expressions are modelled by what they match, including `$` matching before one final newline. The engine's backtracking and matching order are not modelled.
- `get_input`'s `secret` parameter is never used by the function, so it is not modelled.
- An input stream that runs out is modelled as `None`/`InputExhausted`, where Python raises an uncaught `EOFError`.
- `validate_email` is modelled and proved on its own, but `main` never calls it, so no session uses it.
- `main` is one function in the script. The model splits it into one method per section of questions, each proved equal to its stage function, because a single method was too costly to prove.
- The `config` dictionary is a record with one field per key. `main` always sets the same seventeen keys.
- The reader (`EnvFile.Decode`) has no counterpart in the script. It exists only as the renderer's inverse, to state that the file loses nothing.
