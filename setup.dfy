/** `main` of BackEnd/envSetter.py: the overwrite question, the questions
    for every field in the order the script asks them, and the `.env` text
    it then writes.  Standard input is a sequence of lines; the random
    secret `generate_jwt_secret()` would return is a parameter. */
module Setup {
  import opened Wrappers
  import opened PyText
  import opened Validators
  import opened Prompts
  import opened EnvFile

  /** An answer and the index of the first input line not yet read. */
  datatype Answer<T> = Answer(value: T, next: nat)

  /** How a run of `main` ends: cancelled at the overwrite question after
      reading `used` lines, the record whose rendering is written to `.env`
      after reading `used` lines, or standard input ending before the last
      question was answered (where `input()` raises `EOFError`). */
  datatype Outcome = Cancelled(used: nat) | Written(config: Config, used: nat) | InputExhausted

  predicate IsHexDigit(c: char) {
    '0' <= c <= '9' || 'a' <= c <= 'f'
  }

  /** What `secrets.token_hex(32)` returns: 32 bytes as 64 lower-case
      hexadecimal digits. */
  predicate IsTokenHex(s: string) {
    |s| == 64 && forall i :: 0 <= i < |s| ==> IsHexDigit(s[i])
  }

  /** `get_input` asked when `p` lines have been read. */
  function Ask(lines: seq<string>, p: nat, default: string, rule: Rule): (r: Option<Answer<string>>)
    requires p <= |lines|
    ensures r.Some? ==> p < r.value.next <= |lines| && Accepts(rule, r.value.value)
    ensures r.Some? ==> r.value.value == InputValue(lines[r.value.next - 1], default)
    ensures r.Some? && LinesSingle(lines) && NoNewline(default) ==> NoNewline(r.value.value)
  {
    ReadInputSpec(lines[p..], default, rule);
    match ReadInput(lines[p..], default, rule)
    case None => None
    case Some(a) =>
      InputValueSingle(lines[p + a.used - 1], default);
      Some(Answer(a.value, p + a.used))
  }

  /** No input line holds a line break (as `input()` guarantees). */
  predicate LinesSingle(lines: seq<string>) {
    forall i :: 0 <= i < |lines| ==> NoNewline(lines[i])
  }

  /** Stripping a line, or replacing it by a default, adds no line break. */
  lemma InputValueSingle(line: string, default: string)
    ensures NoNewline(line) && NoNewline(default) ==> NoNewline(InputValue(line, default))
  {
    var a := StripSpec(line);
    var r := Strip(line);
    assert forall j :: 0 <= j < |r| ==> r[j] == line[a + j];
  }

  /** `get_yes_no` asked when `p` lines have been read. */
  function AskYesNo(lines: seq<string>, p: nat, default: string): (r: Option<Answer<bool>>)
    requires p <= |lines|
    ensures r.Some? ==> p < r.value.next <= |lines|
  {
    ReadYesNoBounds(lines[p..], default);
    match ReadYesNo(lines[p..], default)
    case None => None
    case Some(a) => Some(Answer(a.value, p + a.used))
  }

  lemma {:induction false} ReadYesNoBounds(lines: seq<string>, default: string)
    ensures var r := ReadYesNo(lines, default);
      r.Some? ==> 1 <= r.value.used <= |lines|
    decreases |lines|
  {
    if lines != [] && YesNoAnswer(lines[0], default).None? {
      ReadYesNoBounds(lines[1..], default);
    }
  }

  /** The `config` dictionary before the first key is set. */
  const Blank := Config("", "", "", "", "", "", "", "", "", "", "", "", "", "", "", "", "")

  /** What the validators guarantee about a written record: a secret that
      was not generated has at least 32 characters, and every field with a
      validator passes it (the endpoint when one is given). */
  predicate ConfigValid(c: Config, generated: string) {
    JwtValid(c, generated) && ApplicationValid(c) && SecurityValid(c) && DatabaseValid(c)
  }

  predicate JwtValid(c: Config, generated: string) {
    c.jwtSecret == generated || JwtSecretOk(c.jwtSecret)
  }

  predicate ApplicationValid(c: Config) {
    NodeEnvOk(c.nodeEnv) && ValidatePort(c.port) && ValidateUrl(c.frontendUrl)
  }

  predicate SecurityValid(c: Config) {
    && SaltRoundsOk(c.bcryptSaltRounds)
    && RateLimitOk(c.rateLimitWindowMs)
    && RateLimitOk(c.rateLimitMaxRequests)
    && RateLimitOk(c.authRateLimitMax)
  }

  predicate DatabaseValid(c: Config) {
    c.dynamodbEndpoint == "" || ValidateUrl(c.dynamodbEndpoint)
  }

  predicate JwtSingle(c: Config) {
    && NoNewline(c.jwtSecret) && NoNewline(c.jwtExpiresIn) && NoNewline(c.jwtRefreshExpiresIn)
    && NoNewline(c.jwtIssuer) && NoNewline(c.jwtAudience)
  }

  predicate AwsSingle(c: Config) {
    NoNewline(c.awsAccessKeyId) && NoNewline(c.awsSecretAccessKey) && NoNewline(c.awsRegion)
  }

  predicate ApplicationSingle(c: Config) {
    NoNewline(c.nodeEnv) && NoNewline(c.port) && NoNewline(c.frontendUrl)
  }

  predicate SecuritySingle(c: Config) {
    && NoNewline(c.bcryptSaltRounds) && NoNewline(c.rateLimitWindowMs)
    && NoNewline(c.rateLimitMaxRequests) && NoNewline(c.authRateLimitMax)
  }

  lemma FieldsSingle(c: Config)
    requires JwtSingle(c) && AwsSingle(c) && ApplicationSingle(c) && SecuritySingle(c)
    requires NoNewline(c.allowedOrigins) && NoNewline(c.dynamodbEndpoint)
    ensures SingleLine(c)
  {
    var vs := Values(c);
    forall i | 0 <= i < |vs| ensures NoNewline(vs[i]) {
    }
  }

  /** The JWT questions: generate the secret or type one of at least 32
      characters, then the two lifetimes, the issuer and the audience. */
  function AskJwt(lines: seq<string>, p: nat, generated: string, c: Config): (r: Option<Answer<Config>>)
    requires p <= |lines|
    ensures r.Some? ==> p < r.value.next <= |lines| && JwtValid(r.value.value, generated)
    ensures r.Some? ==> var d := r.value.value;
      d == c.(jwtSecret := d.jwtSecret, jwtExpiresIn := d.jwtExpiresIn,
              jwtRefreshExpiresIn := d.jwtRefreshExpiresIn, jwtIssuer := d.jwtIssuer,
              jwtAudience := d.jwtAudience)
  {
    var gen :- AskYesNo(lines, p, "y");
    var secret :- if gen.value then Some(Answer(generated, gen.next)) else Ask(lines, gen.next, "", JwtSecret);
    var expiresIn :- Ask(lines, secret.next, "30m", NoCheck);
    var refreshExpiresIn :- Ask(lines, expiresIn.next, "7d", NoCheck);
    var issuer :- Ask(lines, refreshExpiresIn.next, "class-registration-app", NoCheck);
    var audience :- Ask(lines, issuer.next, "class-registration-users", NoCheck);
    Some(Answer(c.(jwtSecret := secret.value, jwtExpiresIn := expiresIn.value,
                   jwtRefreshExpiresIn := refreshExpiresIn.value, jwtIssuer := issuer.value,
                   jwtAudience := audience.value),
                audience.next))
  }

  /** The AWS questions: two keys without default or validator, the region. */
  function AskAws(lines: seq<string>, p: nat, c: Config): (r: Option<Answer<Config>>)
    requires p <= |lines|
    ensures r.Some? ==> p < r.value.next <= |lines|
    ensures r.Some? ==> var d := r.value.value;
      d == c.(awsAccessKeyId := d.awsAccessKeyId, awsSecretAccessKey := d.awsSecretAccessKey,
              awsRegion := d.awsRegion)
  {
    var accessKeyId :- Ask(lines, p, "", NoCheck);
    var secretAccessKey :- Ask(lines, accessKeyId.next, "", NoCheck);
    var region :- Ask(lines, secretAccessKey.next, "us-east-1", NoCheck);
    Some(Answer(c.(awsAccessKeyId := accessKeyId.value, awsSecretAccessKey := secretAccessKey.value,
                   awsRegion := region.value),
                region.next))
  }

  /** The application questions: environment name, port, frontend URL. */
  function AskApplication(lines: seq<string>, p: nat, c: Config): (r: Option<Answer<Config>>)
    requires p <= |lines|
    ensures r.Some? ==> p < r.value.next <= |lines| && ApplicationValid(r.value.value)
    ensures r.Some? ==> var d := r.value.value;
      d == c.(nodeEnv := d.nodeEnv, port := d.port, frontendUrl := d.frontendUrl)
  {
    var nodeEnv :- Ask(lines, p, "development", NodeEnv);
    var port :- Ask(lines, nodeEnv.next, "3000", Port);
    var frontendUrl :- Ask(lines, port.next, "http://localhost:3001", Url);
    Some(Answer(c.(nodeEnv := nodeEnv.value, port := port.value, frontendUrl := frontendUrl.value),
                frontendUrl.next))
  }

  /** The security questions: bcrypt rounds and the three rate limits. */
  function AskSecurity(lines: seq<string>, p: nat, c: Config): (r: Option<Answer<Config>>)
    requires p <= |lines|
    ensures r.Some? ==> p < r.value.next <= |lines| && SecurityValid(r.value.value)
    ensures r.Some? ==> var d := r.value.value;
      d == c.(bcryptSaltRounds := d.bcryptSaltRounds, rateLimitWindowMs := d.rateLimitWindowMs,
              rateLimitMaxRequests := d.rateLimitMaxRequests, authRateLimitMax := d.authRateLimitMax)
  {
    var saltRounds :- Ask(lines, p, "14", SaltRounds);
    var windowMs :- Ask(lines, saltRounds.next, "900000", RateLimit);
    var maxRequests :- Ask(lines, windowMs.next, "100", RateLimit);
    var authMax :- Ask(lines, maxRequests.next, "5", RateLimit);
    Some(Answer(c.(bcryptSaltRounds := saltRounds.value, rateLimitWindowMs := windowMs.value,
                   rateLimitMaxRequests := maxRequests.value, authRateLimitMax := authMax.value),
                authMax.next))
  }

  /** The CORS question: the allowed origins. */
  function AskCors(lines: seq<string>, p: nat, c: Config): (r: Option<Answer<Config>>)
    requires p <= |lines|
    ensures r.Some? ==> p < r.value.next <= |lines|
    ensures r.Some? ==> r.value.value == c.(allowedOrigins := r.value.value.allowedOrigins)
  {
    var origins :- Ask(lines, p, "http://localhost:3001,http://localhost:3000", NoCheck);
    Some(Answer(c.(allowedOrigins := origins.value), origins.next))
  }

  /** The DynamoDB endpoint question, asked after a yes. */
  function AskEndpoint(lines: seq<string>, p: nat): (r: Option<Answer<string>>)
    requires p <= |lines|
    ensures r.Some? ==> p < r.value.next <= |lines| && ValidateUrl(r.value.value)
  {
    Ask(lines, p, "http://localhost:8000", Url)
  }

  /** The database questions: whether to use a local DynamoDB and, if so,
      its URL; otherwise the endpoint is the empty string. */
  function AskDatabase(lines: seq<string>, p: nat, c: Config): (r: Option<Answer<Config>>)
    requires p <= |lines|
    ensures r.Some? ==> p < r.value.next <= |lines| && DatabaseValid(r.value.value)
    ensures r.Some? ==> r.value.value == c.(dynamodbEndpoint := r.value.value.dynamodbEndpoint)
  {
    var useLocalDb :- AskYesNo(lines, p, "n");
    var endpoint :- if useLocalDb.value then AskEndpoint(lines, useLocalDb.next)
                    else Some(Answer("", useLocalDb.next));
    Some(Answer(c.(dynamodbEndpoint := endpoint.value), endpoint.next))
  }

  /** The endpoint follows the answer to the local-DynamoDB question: a no
      (typed, or the default on a blank line) leaves it empty after that one
      line, and a yes gives a URL that `validate_url` accepts. */
  lemma DatabaseAnswer(lines: seq<string>, p: nat, c: Config)
    requires p <= |lines|
    ensures var useLocalDb := AskYesNo(lines, p, "n");
      var r := AskDatabase(lines, p, c);
      && (useLocalDb.None? ==> r.None?)
      && (useLocalDb.Some? && !useLocalDb.value.value ==>
            r == Some(Answer(c.(dynamodbEndpoint := ""), useLocalDb.value.next)))
      && (useLocalDb.Some? && useLocalDb.value.value && r.Some? ==>
            ValidateUrl(r.value.value.dynamodbEndpoint) && r.value.value.dynamodbEndpoint != "")
  {
  }

  /** All the questions from the JWT secret to the DynamoDB endpoint, asked
      from line `p` on, filling the record section by section. */
  function Collect(lines: seq<string>, p: nat, generated: string): (r: Option<Answer<Config>>)
    requires p <= |lines|
    ensures r.Some? ==> p < r.value.next <= |lines|
  {
    var jwt :- AskJwt(lines, p, generated, Blank);
    var aws :- AskAws(lines, jwt.next, jwt.value);
    var app :- AskApplication(lines, aws.next, aws.value);
    var security :- AskSecurity(lines, app.next, app.value);
    var cors :- AskCors(lines, security.next, security.value);
    AskDatabase(lines, cors.next, cors.value)
  }

  /** Every validated field of a collected record passes its validator. */
  lemma CollectValid(lines: seq<string>, p: nat, generated: string)
    requires p <= |lines|
    ensures var r := Collect(lines, p, generated);
      r.Some? ==> ConfigValid(r.value.value, generated)
  {
    var jwt := AskJwt(lines, p, generated, Blank);
    if jwt.Some? {
      var aws := AskAws(lines, jwt.value.next, jwt.value.value);
      if aws.Some? {
        var app := AskApplication(lines, aws.value.next, aws.value.value);
        if app.Some? {
          var security := AskSecurity(lines, app.value.next, app.value.value);
          if security.Some? {
            var cors := AskCors(lines, security.value.next, security.value.value);
            if cors.Some? {
              var db := AskDatabase(lines, cors.value.next, cors.value.value);
              if db.Some? {
                assert Collect(lines, p, generated) == db;
              }
            }
          }
        }
      }
    }
  }

  function Finish(r: Option<Answer<Config>>): Outcome {
    match r
    case None => InputExhausted
    case Some(a) => Written(a.value, a.next)
  }

  /** A run of `main` with `envExists` telling whether `.env` exists. */
  function Session(envExists: bool, lines: seq<string>, generated: string): Outcome {
    if envExists then
      match AskYesNo(lines, 0, "n")
      case None => InputExhausted
      case Some(overwrite) =>
        if !overwrite.value then Cancelled(overwrite.next)
        else Finish(Collect(lines, overwrite.next, generated))
    else Finish(Collect(lines, 0, generated))
  }

  /** `get_input` on the lines not yet read. */
  method Prompt(lines: seq<string>, pos: nat, default: string, rule: Rule) returns (a: Option<Answer<string>>)
    requires pos <= |lines|
    ensures a == Ask(lines, pos, default, rule)
  {
    var r := GetInput(lines[pos..], default, rule);
    if r.None? {
      return None;
    }
    a := Some(Answer(r.value.value, pos + r.value.used));
  }

  /** `get_yes_no` on the lines not yet read. */
  method PromptYesNo(lines: seq<string>, pos: nat, default: string) returns (a: Option<Answer<bool>>)
    requires pos <= |lines|
    ensures a == AskYesNo(lines, pos, default)
  {
    var r := GetYesNo(lines[pos..], default);
    if r.None? {
      return None;
    }
    a := Some(Answer(r.value.value, pos + r.value.used));
  }

  /** The JWT part of `main`. */
  method RunJwt(lines: seq<string>, pos0: nat, generated: string, config0: Config)
    returns (r: Option<Answer<Config>>)
    requires pos0 <= |lines|
    ensures r == AskJwt(lines, pos0, generated, config0)
  {
    var config, pos := config0, pos0;
    var generate := PromptYesNo(lines, pos, "y");
    if generate.None? {
      return None;
    }
    pos := generate.value.next;
    if generate.value.value {
      config := config.(jwtSecret := generated);
    } else {
      var secret := Prompt(lines, pos, "", JwtSecret);
      if secret.None? {
        return None;
      }
      config, pos := config.(jwtSecret := secret.value.value), secret.value.next;
    }
    var expiresIn := Prompt(lines, pos, "30m", NoCheck);
    if expiresIn.None? {
      return None;
    }
    config, pos := config.(jwtExpiresIn := expiresIn.value.value), expiresIn.value.next;
    var refreshExpiresIn := Prompt(lines, pos, "7d", NoCheck);
    if refreshExpiresIn.None? {
      return None;
    }
    config, pos := config.(jwtRefreshExpiresIn := refreshExpiresIn.value.value), refreshExpiresIn.value.next;
    var issuer := Prompt(lines, pos, "class-registration-app", NoCheck);
    if issuer.None? {
      return None;
    }
    config, pos := config.(jwtIssuer := issuer.value.value), issuer.value.next;
    var audience := Prompt(lines, pos, "class-registration-users", NoCheck);
    if audience.None? {
      return None;
    }
    config, pos := config.(jwtAudience := audience.value.value), audience.value.next;
    r := Some(Answer(config, pos));
  }

  /** The AWS part of `main`. */
  method RunAws(lines: seq<string>, pos0: nat, config0: Config) returns (r: Option<Answer<Config>>)
    requires pos0 <= |lines|
    ensures r == AskAws(lines, pos0, config0)
  {
    var config, pos := config0, pos0;
    var accessKeyId := Prompt(lines, pos, "", NoCheck);
    if accessKeyId.None? {
      return None;
    }
    config, pos := config.(awsAccessKeyId := accessKeyId.value.value), accessKeyId.value.next;
    var secretAccessKey := Prompt(lines, pos, "", NoCheck);
    if secretAccessKey.None? {
      return None;
    }
    config, pos := config.(awsSecretAccessKey := secretAccessKey.value.value), secretAccessKey.value.next;
    var region := Prompt(lines, pos, "us-east-1", NoCheck);
    if region.None? {
      return None;
    }
    config, pos := config.(awsRegion := region.value.value), region.value.next;
    r := Some(Answer(config, pos));
  }

  /** The application part of `main`. */
  method RunApplication(lines: seq<string>, pos0: nat, config0: Config) returns (r: Option<Answer<Config>>)
    requires pos0 <= |lines|
    ensures r == AskApplication(lines, pos0, config0)
  {
    var config, pos := config0, pos0;
    var nodeEnv := Prompt(lines, pos, "development", NodeEnv);
    if nodeEnv.None? {
      return None;
    }
    config, pos := config.(nodeEnv := nodeEnv.value.value), nodeEnv.value.next;
    var port := Prompt(lines, pos, "3000", Port);
    if port.None? {
      return None;
    }
    config, pos := config.(port := port.value.value), port.value.next;
    var frontendUrl := Prompt(lines, pos, "http://localhost:3001", Url);
    if frontendUrl.None? {
      return None;
    }
    config, pos := config.(frontendUrl := frontendUrl.value.value), frontendUrl.value.next;
    r := Some(Answer(config, pos));
  }

  /** The security part of `main`. */
  method RunSecurity(lines: seq<string>, pos0: nat, config0: Config) returns (r: Option<Answer<Config>>)
    requires pos0 <= |lines|
    ensures r == AskSecurity(lines, pos0, config0)
  {
    var config, pos := config0, pos0;
    var saltRounds := Prompt(lines, pos, "14", SaltRounds);
    if saltRounds.None? {
      return None;
    }
    config, pos := config.(bcryptSaltRounds := saltRounds.value.value), saltRounds.value.next;
    var windowMs := Prompt(lines, pos, "900000", RateLimit);
    if windowMs.None? {
      return None;
    }
    config, pos := config.(rateLimitWindowMs := windowMs.value.value), windowMs.value.next;
    var maxRequests := Prompt(lines, pos, "100", RateLimit);
    if maxRequests.None? {
      return None;
    }
    config, pos := config.(rateLimitMaxRequests := maxRequests.value.value), maxRequests.value.next;
    var authMax := Prompt(lines, pos, "5", RateLimit);
    if authMax.None? {
      return None;
    }
    config, pos := config.(authRateLimitMax := authMax.value.value), authMax.value.next;
    r := Some(Answer(config, pos));
  }

  /** The CORS part of `main`. */
  method RunCors(lines: seq<string>, pos0: nat, config0: Config) returns (r: Option<Answer<Config>>)
    requires pos0 <= |lines|
    ensures r == AskCors(lines, pos0, config0)
  {
    var config, pos := config0, pos0;
    var origins := Prompt(lines, pos, "http://localhost:3001,http://localhost:3000", NoCheck);
    if origins.None? {
      return None;
    }
    config, pos := config.(allowedOrigins := origins.value.value), origins.value.next;
    r := Some(Answer(config, pos));
  }

  /** The database part of `main`: the endpoint is asked only after a yes,
      and is otherwise set to the empty string. */
  method RunDatabase(lines: seq<string>, pos0: nat, config0: Config) returns (r: Option<Answer<Config>>)
    requires pos0 <= |lines|
    ensures r == AskDatabase(lines, pos0, config0)
  {
    var config, pos := config0, pos0;
    var useLocalDb := PromptYesNo(lines, pos, "n");
    if useLocalDb.None? {
      return None;
    }
    pos := useLocalDb.value.next;
    if useLocalDb.value.value {
      var endpoint := Prompt(lines, pos, "http://localhost:8000", Url);
      if endpoint.None? {
        return None;
      }
      config, pos := config.(dynamodbEndpoint := endpoint.value.value), endpoint.value.next;
    } else {
      config := config.(dynamodbEndpoint := "");
    }
    r := Some(Answer(config, pos));
  }

  /** `main`: the overwrite question when `.env` exists, then the questions
      section by section, filling `config` from the empty dictionary, and
      the text written to `.env`. */
  method RunSetup(envExists: bool, lines: seq<string>, generated: string)
    returns (outcome: Outcome, file: Option<string>)
    ensures outcome == Session(envExists, lines, generated)
    ensures file == if outcome.Written? then Some(Render(outcome.config)) else None
  {
    var pos := 0;
    if envExists {
      var overwrite := PromptYesNo(lines, pos, "n");
      if overwrite.None? {
        return InputExhausted, None;
      }
      if !overwrite.value.value {
        return Cancelled(overwrite.value.next), None;
      }
      pos := overwrite.value.next;
    }
    var config := Blank;
    var step := RunJwt(lines, pos, generated, config);
    if step.None? {
      return InputExhausted, None;
    }
    config, pos := step.value.value, step.value.next;
    step := RunAws(lines, pos, config);
    if step.None? {
      return InputExhausted, None;
    }
    config, pos := step.value.value, step.value.next;
    step := RunApplication(lines, pos, config);
    if step.None? {
      return InputExhausted, None;
    }
    config, pos := step.value.value, step.value.next;
    step := RunSecurity(lines, pos, config);
    if step.None? {
      return InputExhausted, None;
    }
    config, pos := step.value.value, step.value.next;
    step := RunCors(lines, pos, config);
    if step.None? {
      return InputExhausted, None;
    }
    config, pos := step.value.value, step.value.next;
    step := RunDatabase(lines, pos, config);
    if step.None? {
      return InputExhausted, None;
    }
    config, pos := step.value.value, step.value.next;
    outcome := Written(config, pos);
    file := Some(Render(config));
  }

  /* ---- Properties of a session ---- */

  /** `main` stops at the overwrite question exactly when `.env` exists and
      the answer is no; without a `.env` nothing is cancelled. */
  lemma CancelIff(envExists: bool, lines: seq<string>, generated: string)
    ensures Session(envExists, lines, generated).Cancelled? <==>
      envExists && ReadYesNo(lines, "n").Some? && !ReadYesNo(lines, "n").value.value
  {
    assert lines[0..] == lines;
  }

  /** With a `.env` present, an empty line or a no cancels after one line;
      nothing is written. */
  lemma CancelOnNo(lines: seq<string>, generated: string)
    requires |lines| > 0 && Lower(Strip(lines[0])) in ["", "n", "no"]
    ensures Session(true, lines, generated) == Cancelled(1)
  {
    assert YesNoAnswer(lines[0], "n") == Some(false);
    ReadYesNoAt(lines, "n", 0);
    assert lines[0..] == lines;
  }

  /** A written record passes every validator, the text is its rendering
      and no more lines were read than given. */
  lemma WrittenValid(envExists: bool, lines: seq<string>, generated: string)
    ensures var o := Session(envExists, lines, generated);
      o.Written? ==> ConfigValid(o.config, generated) && o.used <= |lines|
  {
    if envExists {
      var overwrite := AskYesNo(lines, 0, "n");
      if overwrite.Some? {
        CollectValid(lines, overwrite.value.next, generated);
      }
    } else {
      CollectValid(lines, 0, generated);
    }
  }

  /** A generated secret is always long enough for the typed-secret
      validator: whichever way it was chosen, the written secret has at
      least 32 characters. */
  lemma WrittenSecretLength(envExists: bool, lines: seq<string>, generated: string)
    requires IsTokenHex(generated)
    ensures var o := Session(envExists, lines, generated);
      o.Written? ==> JwtSecretOk(o.config.jwtSecret)
  {
    if envExists {
      var overwrite := AskYesNo(lines, 0, "n");
      if overwrite.Some? {
        CollectValid(lines, overwrite.value.next, generated);
      }
    } else {
      CollectValid(lines, 0, generated);
    }
  }

  /* ---- Accepting every default ---- */

  /** The record written when every default is accepted and the secret is
      generated. */
  function Defaults(generated: string): Config {
    Config(generated, "30m", "7d", "class-registration-app", "class-registration-users",
           "", "", "us-east-1",
           "development", "3000", "http://localhost:3001",
           "14", "900000", "100", "5",
           "http://localhost:3001,http://localhost:3000",
           "")
  }

  /** Lines `p` to `p + n - 1` are empty answers. */
  predicate BlankFrom(lines: seq<string>, p: nat, n: nat)
    decreases n
  {
    if n == 0 then p <= |lines|
    else p < |lines| && Strip(lines[p]) == "" && BlankFrom(lines, p + 1, n - 1)
  }

  /** A run of empty answers splits into two runs. */
  lemma {:induction false} BlankSplit(lines: seq<string>, p: nat, m: nat, n: nat)
    requires BlankFrom(lines, p, m + n)
    ensures BlankFrom(lines, p, m) && BlankFrom(lines, p + m, n)
    decreases m
  {
    if m > 0 {
      BlankSplit(lines, p + 1, m - 1, n);
    } else if n > 0 {
      assert p < |lines|;
    }
  }

  /** Each line of a run of empty answers is an empty answer. */
  lemma BlankAt(lines: seq<string>, p: nat, n: nat, i: nat)
    requires BlankFrom(lines, p, n) && p <= i < p + n
    ensures BlankFrom(lines, i, 1)
  {
    BlankSplit(lines, p, i - p, p + n - i);
    BlankSplit(lines, i, 1, p + n - i - 1);
  }

  /** An empty answer takes the default, when the validator accepts it. */
  lemma AskDefault(lines: seq<string>, p: nat, default: string, rule: Rule)
    requires BlankFrom(lines, p, 1) && Accepts(rule, default)
    ensures Ask(lines, p, default, rule) == Some(Answer(default, p + 1))
  {
    var rest := lines[p..];
    assert rest[0] == lines[p];
    if default != "" {
      DefaultOnBlank(rest, default, rule);
    } else {
      NoDefaultTakesFirst(rest);
    }
  }

  /** An empty answer to a yes/no question takes its default. */
  lemma AskYesNoDefault(lines: seq<string>, p: nat, default: string, b: bool)
    requires BlankFrom(lines, p, 1)
    requires default == (if b then "y" else "n")
    ensures AskYesNo(lines, p, default) == Some(Answer(b, p + 1))
  {
    var rest := lines[p..];
    assert rest[0] == lines[p];
    YesNoDefault(rest[0], default);
    ReadYesNoAt(rest, default, 0);
  }

  lemma JwtDefaults(lines: seq<string>, p: nat, generated: string, c: Config)
    requires BlankFrom(lines, p, 5)
    ensures AskJwt(lines, p, generated, c) ==
      Some(Answer(c.(jwtSecret := generated, jwtExpiresIn := "30m", jwtRefreshExpiresIn := "7d",
                     jwtIssuer := "class-registration-app", jwtAudience := "class-registration-users"),
                  p + 5))
  {
    BlankAt(lines, p, 5, p);
    AskYesNoDefault(lines, p, "y", true);
    BlankAt(lines, p, 5, p + 1);
    AskDefault(lines, p + 1, "30m", NoCheck);
    BlankAt(lines, p, 5, p + 2);
    AskDefault(lines, p + 2, "7d", NoCheck);
    BlankAt(lines, p, 5, p + 3);
    AskDefault(lines, p + 3, "class-registration-app", NoCheck);
    BlankAt(lines, p, 5, p + 4);
    AskDefault(lines, p + 4, "class-registration-users", NoCheck);
  }

  lemma AwsDefaults(lines: seq<string>, p: nat, c: Config)
    requires BlankFrom(lines, p, 3)
    ensures AskAws(lines, p, c) ==
      Some(Answer(c.(awsAccessKeyId := "", awsSecretAccessKey := "", awsRegion := "us-east-1"), p + 3))
  {
    BlankAt(lines, p, 3, p);
    AskDefault(lines, p, "", NoCheck);
    BlankAt(lines, p, 3, p + 1);
    AskDefault(lines, p + 1, "", NoCheck);
    BlankAt(lines, p, 3, p + 2);
    AskDefault(lines, p + 2, "us-east-1", NoCheck);
  }

  lemma ApplicationDefaults(lines: seq<string>, p: nat, c: Config)
    requires BlankFrom(lines, p, 3)
    ensures AskApplication(lines, p, c) ==
      Some(Answer(c.(nodeEnv := "development", port := "3000", frontendUrl := "http://localhost:3001"), p + 3))
  {
    NodeEnvNames();
    DefaultPortPasses();
    DefaultFrontendUrlPasses();
    BlankAt(lines, p, 3, p);
    AskDefault(lines, p, "development", NodeEnv);
    BlankAt(lines, p, 3, p + 1);
    AskDefault(lines, p + 1, "3000", Port);
    BlankAt(lines, p, 3, p + 2);
    AskDefault(lines, p + 2, "http://localhost:3001", Url);
  }

  lemma SecurityDefaults(lines: seq<string>, p: nat, c: Config)
    requires BlankFrom(lines, p, 4)
    ensures AskSecurity(lines, p, c) ==
      Some(Answer(c.(bcryptSaltRounds := "14", rateLimitWindowMs := "900000",
                     rateLimitMaxRequests := "100", authRateLimitMax := "5"), p + 4))
  {
    DefaultSaltRoundsPass();
    DefaultRateLimitsPass();
    BlankAt(lines, p, 4, p);
    AskDefault(lines, p, "14", SaltRounds);
    BlankAt(lines, p, 4, p + 1);
    AskDefault(lines, p + 1, "900000", RateLimit);
    BlankAt(lines, p, 4, p + 2);
    AskDefault(lines, p + 2, "100", RateLimit);
    BlankAt(lines, p, 4, p + 3);
    AskDefault(lines, p + 3, "5", RateLimit);
  }

  lemma DefaultRateLimitsPass()
    ensures RateLimitOk("900000") && RateLimitOk("100") && RateLimitOk("5")
  {
  }

  lemma CorsDefaults(lines: seq<string>, p: nat, c: Config)
    requires BlankFrom(lines, p, 1)
    ensures AskCors(lines, p, c) ==
      Some(Answer(c.(allowedOrigins := "http://localhost:3001,http://localhost:3000"), p + 1))
  {
    AskDefault(lines, p, "http://localhost:3001,http://localhost:3000", NoCheck);
  }

  lemma DatabaseDefaults(lines: seq<string>, p: nat, c: Config)
    requires BlankFrom(lines, p, 1)
    ensures AskDatabase(lines, p, c) == Some(Answer(c.(dynamodbEndpoint := ""), p + 1))
  {
    AskYesNoDefault(lines, p, "n", false);
  }

  /** Accepting every default reads one line per question: each default
      passes its validator, so no question is asked twice. */
  lemma CollectDefaults(lines: seq<string>, p: nat, generated: string)
    requires BlankFrom(lines, p, 17)
    ensures Collect(lines, p, generated) == Some(Answer(Defaults(generated), p + 17))
  {
    var c := Blank;
    BlankSplit(lines, p, 5, 12);
    JwtDefaults(lines, p, generated, c);
    c := c.(jwtSecret := generated, jwtExpiresIn := "30m", jwtRefreshExpiresIn := "7d",
            jwtIssuer := "class-registration-app", jwtAudience := "class-registration-users");
    BlankSplit(lines, p + 5, 3, 9);
    AwsDefaults(lines, p + 5, c);
    c := c.(awsAccessKeyId := "", awsSecretAccessKey := "", awsRegion := "us-east-1");
    BlankSplit(lines, p + 8, 3, 6);
    ApplicationDefaults(lines, p + 8, c);
    c := c.(nodeEnv := "development", port := "3000", frontendUrl := "http://localhost:3001");
    BlankSplit(lines, p + 11, 4, 2);
    SecurityDefaults(lines, p + 11, c);
    c := c.(bcryptSaltRounds := "14", rateLimitWindowMs := "900000",
            rateLimitMaxRequests := "100", authRateLimitMax := "5");
    BlankSplit(lines, p + 15, 1, 1);
    CorsDefaults(lines, p + 15, c);
    c := c.(allowedOrigins := "http://localhost:3001,http://localhost:3000");
    DatabaseDefaults(lines, p + 16, c);
    c := c.(dynamodbEndpoint := "");
    assert c == Defaults(generated);
  }

  /** Without a `.env`, seventeen empty answers write the defaults and the
      generated secret. */
  lemma AllDefaults(lines: seq<string>, generated: string)
    requires BlankFrom(lines, 0, 17)
    ensures Session(false, lines, generated) == Written(Defaults(generated), 17)
  {
    CollectDefaults(lines, 0, generated);
    FreshSession(lines, generated, Defaults(generated), 17);
  }

  /** Without a `.env`, the session writes whatever the questions collect. */
  lemma FreshSession(lines: seq<string>, generated: string, c: Config, used: nat)
    requires Collect(lines, 0, generated) == Some(Answer(c, used))
    ensures Session(false, lines, generated) == Written(c, used)
  {
  }

  /** With a `.env`, a yes to the overwrite question and seventeen empty
      answers write the same file after eighteen lines. */
  lemma OverwriteAllDefaults(lines: seq<string>, generated: string)
    requires |lines| > 0 && Lower(Strip(lines[0])) in ["y", "yes"]
    requires BlankFrom(lines, 1, 17)
    ensures Session(true, lines, generated) == Written(Defaults(generated), 18)
  {
    OverwriteYes(lines);
    CollectDefaults(lines, 1, generated);
  }

  lemma OverwriteYes(lines: seq<string>)
    requires |lines| > 0 && Lower(Strip(lines[0])) in ["y", "yes"]
    ensures AskYesNo(lines, 0, "n") == Some(Answer(true, 1))
  {
    assert YesNoAnswer(lines[0], "n") == Some(true);
    ReadYesNoAt(lines, "n", 0);
    assert lines[0..] == lines;
  }

  /** The defaults hold no line break. */
  lemma JwtDefaultsSingle()
    ensures NoNewline("") && NoNewline("30m") && NoNewline("7d")
    ensures NoNewline("class-registration-app") && NoNewline("class-registration-users")
  {
  }

  lemma OtherDefaultsSingle()
    ensures NoNewline("us-east-1") && NoNewline("development") && NoNewline("3000")
    ensures NoNewline("http://localhost:3001") && NoNewline("14") && NoNewline("900000")
    ensures NoNewline("100") && NoNewline("5") && NoNewline("http://localhost:8000")
  {
  }

  lemma OriginsDefaultSingle()
    ensures NoNewline("http://localhost:3001,http://localhost:3000")
  {
  }

  /** Each section's answers are single lines when the input lines are. */
  lemma JwtAnswersSingle(lines: seq<string>, p: nat, generated: string, c: Config)
    requires p <= |lines| && LinesSingle(lines) && NoNewline(generated)
    ensures var r := AskJwt(lines, p, generated, c);
      r.Some? ==> JwtSingle(r.value.value)
  {
    JwtDefaultsSingle();
  }

  lemma AwsAnswersSingle(lines: seq<string>, p: nat, c: Config)
    requires p <= |lines| && LinesSingle(lines)
    ensures var r := AskAws(lines, p, c);
      r.Some? ==> AwsSingle(r.value.value)
  {
    JwtDefaultsSingle();
    OtherDefaultsSingle();
  }

  lemma ApplicationAnswersSingle(lines: seq<string>, p: nat, c: Config)
    requires p <= |lines| && LinesSingle(lines)
    ensures var r := AskApplication(lines, p, c);
      r.Some? ==> ApplicationSingle(r.value.value)
  {
    OtherDefaultsSingle();
  }

  lemma SecurityAnswersSingle(lines: seq<string>, p: nat, c: Config)
    requires p <= |lines| && LinesSingle(lines)
    ensures var r := AskSecurity(lines, p, c);
      r.Some? ==> SecuritySingle(r.value.value)
  {
    OtherDefaultsSingle();
  }

  lemma CorsAnswersSingle(lines: seq<string>, p: nat, c: Config)
    requires p <= |lines| && LinesSingle(lines)
    ensures var r := AskCors(lines, p, c);
      r.Some? ==> NoNewline(r.value.value.allowedOrigins)
  {
    OriginsDefaultSingle();
  }

  lemma DatabaseAnswersSingle(lines: seq<string>, p: nat, c: Config)
    requires p <= |lines| && LinesSingle(lines)
    ensures var r := AskDatabase(lines, p, c);
      r.Some? ==> NoNewline(r.value.value.dynamodbEndpoint)
  {
    OtherDefaultsSingle();
    assert NoNewline("");
  }

  /** A record filled from single-line answers has single-line values. */
  lemma CollectSingle(lines: seq<string>, p: nat, generated: string)
    requires p <= |lines| && LinesSingle(lines) && NoNewline(generated)
    ensures var r := Collect(lines, p, generated);
      r.Some? ==> SingleLine(r.value.value)
  {
    var jwt := AskJwt(lines, p, generated, Blank);
    if jwt.Some? {
      JwtAnswersSingle(lines, p, generated, Blank);
      var aws := AskAws(lines, jwt.value.next, jwt.value.value);
      if aws.Some? {
        AwsAnswersSingle(lines, jwt.value.next, jwt.value.value);
        var app := AskApplication(lines, aws.value.next, aws.value.value);
        if app.Some? {
          ApplicationAnswersSingle(lines, aws.value.next, aws.value.value);
          var security := AskSecurity(lines, app.value.next, app.value.value);
          if security.Some? {
            SecurityAnswersSingle(lines, app.value.next, app.value.value);
            var cors := AskCors(lines, security.value.next, security.value.value);
            if cors.Some? {
              CorsAnswersSingle(lines, security.value.next, security.value.value);
              var db := AskDatabase(lines, cors.value.next, cors.value.value);
              if db.Some? {
                DatabaseAnswersSingle(lines, cors.value.next, cors.value.value);
                FieldsSingle(db.value.value);
              }
            }
          }
        }
      }
    }
  }

  /** The `.env` text of a completed run reads back as the record the
      answers filled: input lines carry no line break and neither does the
      generated secret. */
  lemma WrittenReadsBack(envExists: bool, lines: seq<string>, generated: string)
    requires LinesSingle(lines) && IsTokenHex(generated)
    ensures var o := Session(envExists, lines, generated);
      o.Written? ==> Decode(Render(o.config)) == Some(o.config)
  {
    assert NoNewline(generated);
    var o := Session(envExists, lines, generated);
    if o.Written? {
      if envExists {
        var ow := AskYesNo(lines, 0, "n");
        CollectSingle(lines, ow.value.next, generated);
      } else {
        CollectSingle(lines, 0, generated);
      }
      RoundTrip(o.config);
    }
  }
}
