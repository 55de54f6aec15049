/** The `.env` file BackEnd/envSetter.py writes at the end of `main`: a
    fixed-order list of sections, each a comment header, one `KEY=value`
    line per field and a blank line, the Database section only when a
    DynamoDB endpoint was given.  A reader for the same format is the
    renderer's partner: reading a rendered file gives back the record. */
module EnvFile {
  import opened Wrappers
  import opened PyText

  /** The `config` dictionary `main` fills: one field per key it sets. */
  datatype Config = Config(
    jwtSecret: string,
    jwtExpiresIn: string,
    jwtRefreshExpiresIn: string,
    jwtIssuer: string,
    jwtAudience: string,
    awsAccessKeyId: string,
    awsSecretAccessKey: string,
    awsRegion: string,
    nodeEnv: string,
    port: string,
    frontendUrl: string,
    bcryptSaltRounds: string,
    rateLimitWindowMs: string,
    rateLimitMaxRequests: string,
    authRateLimitMax: string,
    allowedOrigins: string,
    dynamodbEndpoint: string)

  /** One `KEY=value` assignment. */
  datatype Entry = Entry(key: string, value: string)

  /** A header comment line and the assignments under it. */
  datatype Section = Section(header: string, entries: seq<Entry>)

  function JwtSection(c: Config): Section {
    Section("# JWT Configuration", [
      Entry("JWT_SECRET", c.jwtSecret),
      Entry("JWT_EXPIRES_IN", c.jwtExpiresIn),
      Entry("JWT_REFRESH_EXPIRES_IN", c.jwtRefreshExpiresIn),
      Entry("JWT_ISSUER", c.jwtIssuer),
      Entry("JWT_AUDIENCE", c.jwtAudience)])
  }

  function AwsSection(c: Config): Section {
    Section("# AWS Configuration", [
      Entry("AWS_ACCESS_KEY_ID", c.awsAccessKeyId),
      Entry("AWS_SECRET_ACCESS_KEY", c.awsSecretAccessKey),
      Entry("AWS_REGION", c.awsRegion)])
  }

  function ApplicationSection(c: Config): Section {
    Section("# Application Configuration", [
      Entry("NODE_ENV", c.nodeEnv),
      Entry("PORT", c.port),
      Entry("FRONTEND_URL", c.frontendUrl)])
  }

  function SecuritySection(c: Config): Section {
    Section("# Security Configuration", [
      Entry("BCRYPT_SALT_ROUNDS", c.bcryptSaltRounds),
      Entry("RATE_LIMIT_WINDOW_MS", c.rateLimitWindowMs),
      Entry("RATE_LIMIT_MAX_REQUESTS", c.rateLimitMaxRequests),
      Entry("AUTH_RATE_LIMIT_MAX", c.authRateLimitMax)])
  }

  function CorsSection(c: Config): Section {
    Section("# CORS Configuration", [Entry("ALLOWED_ORIGINS", c.allowedOrigins)])
  }

  function DatabaseSection(c: Config): Section {
    Section("# Database Configuration", [Entry("DYNAMODB_ENDPOINT", c.dynamodbEndpoint)])
  }

  /** The sections in the order `main` writes them; the Database section
      only when the endpoint is non-empty (a truthy string). */
  function Sections(c: Config): seq<Section> {
    [JwtSection(c), AwsSection(c), ApplicationSection(c), SecuritySection(c), CorsSection(c)]
    + (if c.dynamodbEndpoint != "" then [DatabaseSection(c)] else [])
  }

  function EntryLine(e: Entry): string {
    e.key + "=" + e.value
  }

  function EntryLines(es: seq<Entry>): seq<string>
    decreases |es|
  {
    if es == [] then [] else [EntryLine(es[0])] + EntryLines(es[1..])
  }

  /** A section as written: its header, its assignments, a blank line. */
  function SectionLines(s: Section): seq<string> {
    [s.header] + EntryLines(s.entries) + [""]
  }

  function Lines(ss: seq<Section>): seq<string>
    decreases |ss|
  {
    if ss == [] then [] else SectionLines(ss[0]) + Lines(ss[1..])
  }

  /** The lines of the file, without their terminating newlines. */
  function FileLines(c: Config): seq<string> {
    Lines(Sections(c))
  }

  /** Every line followed by `\n`, as each `f.write` call ends. */
  function Join(lines: seq<string>): string
    decreases |lines|
  {
    if lines == [] then "" else lines[0] + "\n" + Join(lines[1..])
  }

  /** The text written to `.env`. */
  function Render(c: Config): string {
    Join(FileLines(c))
  }

  /* ---- Reading the format back ---- */

  /** The text cut at each `\n`; a final line without one is kept. */
  function SplitLines(t: string): seq<string>
    decreases |t|
  {
    if t == [] then []
    else
      var i := Find(t, '\n');
      if i == |t| then [t] else [t[..i]] + SplitLines(t[i + 1..])
  }

  predicate IsComment(line: string) {
    |line| > 0 && line[0] == '#'
  }

  /** An assignment line split at its first `=`; comments, blank lines and
      lines without `=` assign nothing. */
  function ParseLine(line: string): Option<Entry> {
    if line == "" || IsComment(line) then None
    else
      var i := Find(line, '=');
      if i == |line| then None else Some(Entry(line[..i], line[i + 1..]))
  }

  /** The assignments of `lines`, in order. */
  function Assignments(lines: seq<string>): seq<Entry>
    decreases |lines|
  {
    if lines == [] then []
    else
      match ParseLine(lines[0])
      case Some(e) => [e] + Assignments(lines[1..])
      case None => Assignments(lines[1..])
  }

  /** The comment lines of `lines`, in order. */
  function Headers(lines: seq<string>): seq<string>
    decreases |lines|
  {
    if lines == [] then []
    else if IsComment(lines[0]) then [lines[0]] + Headers(lines[1..])
    else Headers(lines[1..])
  }

  /** The keys of a rendered file, in order; the last only with an endpoint. */
  const ConfigKeys: seq<string> := [
    "JWT_SECRET", "JWT_EXPIRES_IN", "JWT_REFRESH_EXPIRES_IN", "JWT_ISSUER", "JWT_AUDIENCE",
    "AWS_ACCESS_KEY_ID", "AWS_SECRET_ACCESS_KEY", "AWS_REGION",
    "NODE_ENV", "PORT", "FRONTEND_URL",
    "BCRYPT_SALT_ROUNDS", "RATE_LIMIT_WINDOW_MS", "RATE_LIMIT_MAX_REQUESTS", "AUTH_RATE_LIMIT_MAX",
    "ALLOWED_ORIGINS",
    "DYNAMODB_ENDPOINT"]

  /** The record held by a list of assignments with the keys of
      `ConfigKeys`, in that order; a file without the endpoint line has an
      empty endpoint. */
  function FromEntries(es: seq<Entry>): Option<Config> {
    if (|es| == 16 || |es| == 17) && forall i :: 0 <= i < |es| ==> es[i].key == ConfigKeys[i] then
      Some(Config(es[0].value, es[1].value, es[2].value, es[3].value, es[4].value,
                  es[5].value, es[6].value, es[7].value,
                  es[8].value, es[9].value, es[10].value,
                  es[11].value, es[12].value, es[13].value, es[14].value,
                  es[15].value,
                  if |es| == 17 then es[16].value else ""))
    else None
  }

  /** Reads a `.env` file in the format `main` writes. */
  function Decode(t: string): Option<Config> {
    FromEntries(Assignments(SplitLines(t)))
  }

  /* ---- Properties ---- */

  predicate NoNewline(s: string) {
    forall i :: 0 <= i < |s| ==> s[i] != '\n'
  }

  /** What a key must be for its line to read back: non-empty, not a
      comment, without `=` and without a line break. */
  predicate IsKey(k: string) {
    |k| > 0 && k[0] != '#' && '=' !in k && '\n' !in k
  }

  /** Headers are one-line comments and keys are keys. */
  predicate WellFormedSection(s: Section) {
    IsComment(s.header) && NoNewline(s.header) && KeysOk(s.entries)
  }

  predicate KeysOk(es: seq<Entry>) {
    forall j :: 0 <= j < |es| ==> IsKey(es[j].key)
  }

  predicate WellFormed(ss: seq<Section>) {
    forall i :: 0 <= i < |ss| ==> WellFormedSection(ss[i])
  }

  predicate ValuesOk(es: seq<Entry>) {
    forall j :: 0 <= j < |es| ==> NoNewline(es[j].value)
  }

  predicate SingleLineValues(ss: seq<Section>) {
    forall i :: 0 <= i < |ss| ==> ValuesOk(ss[i].entries)
  }

  /** The field values in the order of `ConfigKeys`. */
  function Values(c: Config): seq<string> {
    [c.jwtSecret, c.jwtExpiresIn, c.jwtRefreshExpiresIn, c.jwtIssuer, c.jwtAudience,
     c.awsAccessKeyId, c.awsSecretAccessKey, c.awsRegion,
     c.nodeEnv, c.port, c.frontendUrl,
     c.bcryptSaltRounds, c.rateLimitWindowMs, c.rateLimitMaxRequests, c.authRateLimitMax,
     c.allowedOrigins,
     c.dynamodbEndpoint]
  }

  /** No field holds a line break: each is one line of input, a default or
      the generated secret. */
  predicate SingleLine(c: Config) {
    forall i :: 0 <= i < |Values(c)| ==> NoNewline(Values(c)[i])
  }

  function Entries(ss: seq<Section>): seq<Entry>
    decreases |ss|
  {
    if ss == [] then [] else ss[0].entries + Entries(ss[1..])
  }

  function HeaderList(ss: seq<Section>): seq<string>
    decreases |ss|
  {
    if ss == [] then [] else [ss[0].header] + HeaderList(ss[1..])
  }

  /** A line without line breaks survives the newline it is written with. */
  lemma {:induction false} SplitJoin(lines: seq<string>)
    requires forall i :: 0 <= i < |lines| ==> NoNewline(lines[i])
    ensures SplitLines(Join(lines)) == lines
    decreases |lines|
  {
    if lines != [] {
      var rest := Join(lines[1..]);
      FirstLine(lines[0], rest);
      SplitJoin(lines[1..]);
    }
  }

  /** A line without line breaks is cut off at the newline that ends it. */
  lemma FirstLine(line: string, rest: string)
    requires NoNewline(line)
    ensures var t := line + "\n" + rest;
      t != [] && Find(t, '\n') == |line| && t[..|line|] == line && t[|line| + 1..] == rest
  {
    var t := line + "\n" + rest;
    var n := |line|;
    assert t[n] == '\n';
    assert forall j :: 0 <= j < n ==> t[j] == line[j];
    assert t[..n] == line;
    assert t[n + 1..] == rest;
  }

  /** A written assignment reads back as itself, whatever its value holds
      (`=` included): the key has no `=`, so the split is at the right one. */
  lemma EntryParse(e: Entry)
    requires IsKey(e.key)
    ensures ParseLine(EntryLine(e)) == Some(e)
    ensures !IsComment(EntryLine(e))
    ensures NoNewline(e.value) ==> NoNewline(EntryLine(e))
  {
    var line := EntryLine(e);
    var n := |e.key|;
    assert line[n] == '=';
    assert forall j :: 0 <= j < n ==> line[j] == e.key[j];
    var i := Find(line, '=');
    assert i == n;
    assert line[..i] == e.key;
    assert line[i + 1..] == e.value;
    assert forall j :: n < j < |line| ==> line[j] == e.value[j - n - 1];
  }

  lemma {:induction false} AssignmentsAppend(a: seq<string>, b: seq<string>)
    ensures Assignments(a + b) == Assignments(a) + Assignments(b)
    ensures Headers(a + b) == Headers(a) + Headers(b)
    decreases |a|
  {
    if a == [] {
      assert a + b == b;
    } else {
      assert (a + b)[0] == a[0];
      assert (a + b)[1..] == a[1..] + b;
      AssignmentsAppend(a[1..], b);
    }
  }

  lemma {:induction false} EntryLinesRead(es: seq<Entry>)
    requires KeysOk(es)
    ensures Assignments(EntryLines(es)) == es
    ensures Headers(EntryLines(es)) == []
    ensures ValuesOk(es) ==>
              forall i :: 0 <= i < |EntryLines(es)| ==> NoNewline(EntryLines(es)[i])
    decreases |es|
  {
    if es != [] {
      EntryParse(es[0]);
      EntryLinesRead(es[1..]);
      AssignmentsAppend([EntryLine(es[0])], EntryLines(es[1..]));
    }
  }

  /** A header line holds no assignment; a blank line holds neither. */
  lemma SingleLines(header: string)
    requires IsComment(header)
    ensures Assignments([header]) == [] && Headers([header]) == [header]
    ensures Assignments([""]) == [] && Headers([""]) == []
  {
    assert [header][1..] == [] && [""][1..] == [];
  }

  /** Reading the lines of well-formed sections gives back their
      assignments and their headers, in order. */
  lemma {:induction false} SectionsRead(ss: seq<Section>)
    requires WellFormed(ss)
    ensures Assignments(Lines(ss)) == Entries(ss)
    ensures Headers(Lines(ss)) == HeaderList(ss)
    decreases |ss|
  {
    if ss != [] {
      var s := ss[0];
      var body := EntryLines(s.entries);
      var rest := Lines(ss[1..]);
      assert WellFormedSection(s);
      EntryLinesRead(s.entries);
      SectionsRead(ss[1..]);
      var sec := SectionLines(s);
      assert Lines(ss) == sec + rest;
      SingleLines(s.header);
      AssignmentsAppend([s.header], body);
      AssignmentsAppend([s.header] + body, [""]);
      assert Assignments(sec) == s.entries;
      assert Headers(sec) == [s.header];
      AssignmentsAppend(sec, rest);
    }
  }

  /** Sections with one-line headers, keys and values have one-line lines. */
  lemma {:induction false} SectionsSingleLine(ss: seq<Section>)
    requires WellFormed(ss) && SingleLineValues(ss)
    ensures forall i :: 0 <= i < |Lines(ss)| ==> NoNewline(Lines(ss)[i])
    decreases |ss|
  {
    if ss != [] {
      var s := ss[0];
      var body := EntryLines(s.entries);
      var rest := Lines(ss[1..]);
      assert WellFormedSection(s) && ValuesOk(s.entries);
      EntryLinesRead(s.entries);
      SectionsSingleLine(ss[1..]);
      var l := Lines(ss);
      assert l == [s.header] + body + [""] + rest;
      forall i | 0 <= i < |l| ensures NoNewline(l[i]) {
        if 0 < i <= |body| {
          assert l[i] == body[i - 1];
        } else if i > |body| + 1 {
          assert l[i] == rest[i - |body| - 2];
        }
      }
    }
  }

  /** Every comment line but the first directly follows a blank line. */
  predicate Separated(l: seq<string>) {
    forall i :: 0 < i < |l| && IsComment(l[i]) ==> l[i - 1] == ""
  }

  /** Every section ends with a blank line, and every header but the
      first directly follows one. */
  lemma {:induction false} SectionsSeparated(ss: seq<Section>)
    requires WellFormed(ss)
    ensures var l := Lines(ss);
      && (ss != [] ==> |l| > 0 && IsComment(l[0]) && l[|l| - 1] == "")
      && Separated(l)
    decreases |ss|
  {
    if ss != [] {
      assert WellFormedSection(ss[0]);
      SectionSeparated(ss[0]);
      SectionsSeparated(ss[1..]);
      SeparatedAppend(SectionLines(ss[0]), Lines(ss[1..]));
    }
  }

  /** A section is its header, lines that are not comments, and a blank. */
  lemma SectionSeparated(s: Section)
    requires WellFormedSection(s)
    ensures var l := SectionLines(s);
      && |l| > 0 && IsComment(l[0]) && l[|l| - 1] == ""
      && forall i :: 0 < i < |l| ==> !IsComment(l[i])
  {
    var body := EntryLines(s.entries);
    var l := SectionLines(s);
    EntryLinesRead(s.entries);
    forall i | 0 < i < |l| ensures !IsComment(l[i]) {
      if i <= |body| {
        assert l[i] == body[i - 1];
        if IsComment(body[i - 1]) {
          HeaderOfComment(body, i - 1);
        }
      }
    }
  }

  lemma SeparatedAppend(a: seq<string>, b: seq<string>)
    requires |a| > 0 && a[|a| - 1] == "" && Separated(a) && Separated(b)
    ensures Separated(a + b)
  {
    var l := a + b;
    forall i | 0 < i < |l| && IsComment(l[i]) ensures l[i - 1] == "" {
      if i < |a| {
        assert l[i] == a[i] && l[i - 1] == a[i - 1];
      } else if i > |a| {
        assert l[i] == b[i - |a|] && l[i - 1] == b[i - |a| - 1];
      }
    }
  }

  lemma {:induction false} HeaderOfComment(lines: seq<string>, i: nat)
    requires i < |lines| && IsComment(lines[i])
    ensures lines[i] in Headers(lines)
    decreases i
  {
    if i > 0 {
      HeaderOfComment(lines[1..], i - 1);
    }
  }

  /** Unfolding the section list at position `k`. */
  lemma EntriesFrom(ss: seq<Section>, k: nat)
    requires k < |ss|
    ensures Entries(ss[k..]) == ss[k].entries + Entries(ss[k + 1..])
  {
    assert ss[k..][1..] == ss[k + 1..];
  }

  lemma HeadersFrom(ss: seq<Section>, k: nat)
    requires k < |ss|
    ensures HeaderList(ss[k..]) == [ss[k].header] + HeaderList(ss[k + 1..])
  {
    assert ss[k..][1..] == ss[k + 1..];
  }

  lemma JwtKeys()
    ensures IsKey("JWT_SECRET") && IsKey("JWT_EXPIRES_IN") && IsKey("JWT_REFRESH_EXPIRES_IN") && IsKey("JWT_ISSUER") && IsKey("JWT_AUDIENCE")
  {
  }

  lemma JwtSectionWellFormed(c: Config)
    ensures WellFormedSection(JwtSection(c))
  {
    JwtKeys();
    var es := JwtSection(c).entries;
    assert forall j :: 0 <= j < |es| ==> IsKey(es[j].key);
  }

  lemma AwsKeys()
    ensures IsKey("AWS_ACCESS_KEY_ID") && IsKey("AWS_SECRET_ACCESS_KEY") && IsKey("AWS_REGION")
  {
  }

  lemma AwsSectionWellFormed(c: Config)
    ensures WellFormedSection(AwsSection(c))
  {
    AwsKeys();
    var es := AwsSection(c).entries;
    assert forall j :: 0 <= j < |es| ==> IsKey(es[j].key);
  }

  lemma ApplicationKeys()
    ensures IsKey("NODE_ENV") && IsKey("PORT") && IsKey("FRONTEND_URL")
  {
  }

  lemma ApplicationSectionWellFormed(c: Config)
    ensures WellFormedSection(ApplicationSection(c))
  {
    ApplicationKeys();
    var es := ApplicationSection(c).entries;
    assert forall j :: 0 <= j < |es| ==> IsKey(es[j].key);
  }

  lemma SecurityKeys()
    ensures IsKey("BCRYPT_SALT_ROUNDS") && IsKey("RATE_LIMIT_WINDOW_MS") && IsKey("RATE_LIMIT_MAX_REQUESTS") && IsKey("AUTH_RATE_LIMIT_MAX")
  {
  }

  lemma SecuritySectionWellFormed(c: Config)
    ensures WellFormedSection(SecuritySection(c))
  {
    SecurityKeys();
    var es := SecuritySection(c).entries;
    assert forall j :: 0 <= j < |es| ==> IsKey(es[j].key);
  }

  lemma CorsKeys()
    ensures IsKey("ALLOWED_ORIGINS")
  {
  }

  lemma CorsSectionWellFormed(c: Config)
    ensures WellFormedSection(CorsSection(c))
  {
    CorsKeys();
    var es := CorsSection(c).entries;
    assert forall j :: 0 <= j < |es| ==> IsKey(es[j].key);
  }

  lemma DatabaseKeys()
    ensures IsKey("DYNAMODB_ENDPOINT")
  {
  }

  lemma DatabaseSectionWellFormed(c: Config)
    ensures WellFormedSection(DatabaseSection(c))
  {
    DatabaseKeys();
    var es := DatabaseSection(c).entries;
    assert forall j :: 0 <= j < |es| ==> IsKey(es[j].key);
  }

  /** The rendered sections are well formed whatever the values. */
  lemma ConfigWellFormed(c: Config)
    ensures WellFormed(Sections(c))
  {
    JwtSectionWellFormed(c);
    AwsSectionWellFormed(c);
    ApplicationSectionWellFormed(c);
    SecuritySectionWellFormed(c);
    CorsSectionWellFormed(c);
    DatabaseSectionWellFormed(c);
  }

  /** A record without line breaks renders values without line breaks. */
  lemma ConfigSingleLine(c: Config)
    requires SingleLine(c)
    ensures SingleLineValues(Sections(c))
  {
    var ss := Sections(c);
    var vs := Values(c);
    assert NoNewline(vs[0]) && NoNewline(vs[1]) && NoNewline(vs[2]) && NoNewline(vs[3]) && NoNewline(vs[4]);
    assert ValuesOk(ss[0].entries);
    assert NoNewline(vs[5]) && NoNewline(vs[6]) && NoNewline(vs[7]);
    assert ValuesOk(ss[1].entries);
    assert NoNewline(vs[8]) && NoNewline(vs[9]) && NoNewline(vs[10]);
    assert ValuesOk(ss[2].entries);
    assert NoNewline(vs[11]) && NoNewline(vs[12]) && NoNewline(vs[13]) && NoNewline(vs[14]);
    assert ValuesOk(ss[3].entries);
    assert NoNewline(vs[15]) && NoNewline(vs[16]);
    assert ValuesOk(ss[4].entries);
  }

  /** The assignments a rendered file holds: the keys of `ConfigKeys` in
      that order, each with the value of its field, the endpoint only when
      it is non-empty. */
  function Fields(c: Config): (es: seq<Entry>)
    ensures |es| == if c.dynamodbEndpoint != "" then 17 else 16
    ensures forall i :: 0 <= i < |es| ==> es[i] == Entry(ConfigKeys[i], Values(c)[i])
  {
    var n := if c.dynamodbEndpoint != "" then 17 else 16;
    seq(n, i requires 0 <= i < n => Entry(ConfigKeys[i], Values(c)[i]))
  }

  lemma JwtFields(c: Config)
    ensures JwtSection(c).entries == Fields(c)[..5]
  {
    var fs := Fields(c);
    var es := JwtSection(c).entries;
    forall i | 0 <= i < 5 ensures es[i] == fs[0 + i] {
    }
  }

  lemma AwsFields(c: Config)
    ensures AwsSection(c).entries == Fields(c)[5..8]
  {
    var fs := Fields(c);
    var es := AwsSection(c).entries;
    forall i | 0 <= i < 3 ensures es[i] == fs[5 + i] {
    }
  }

  lemma ApplicationFields(c: Config)
    ensures ApplicationSection(c).entries == Fields(c)[8..11]
  {
    var fs := Fields(c);
    var es := ApplicationSection(c).entries;
    forall i | 0 <= i < 3 ensures es[i] == fs[8 + i] {
    }
  }

  lemma SecurityFields(c: Config)
    ensures SecuritySection(c).entries == Fields(c)[11..15]
  {
    var fs := Fields(c);
    var es := SecuritySection(c).entries;
    forall i | 0 <= i < 4 ensures es[i] == fs[11 + i] {
    }
  }

  lemma LastFields(c: Config)
    ensures CorsSection(c).entries == Fields(c)[15..16]
    ensures c.dynamodbEndpoint != "" ==> DatabaseSection(c).entries == Fields(c)[16..]
  {
    var fs := Fields(c);
    assert fs[15] == CorsSection(c).entries[0];
    if c.dynamodbEndpoint != "" {
      assert fs[16] == DatabaseSection(c).entries[0];
    }
  }

  /** The assignments of five sections, or of five and one more. */
  lemma EntriesOfFive(ss: seq<Section>, extra: seq<Section>)
    requires |ss| == 5 && |extra| <= 1
    ensures Entries(ss + extra) ==
      ss[0].entries + ss[1].entries + ss[2].entries + ss[3].entries + ss[4].entries
      + (if extra == [] then [] else extra[0].entries)
  {
    var all := ss + extra;
    assert all[0..] == all;
    EntriesFrom(all, 0);
    EntriesFrom(all, 1);
    EntriesFrom(all, 2);
    EntriesFrom(all, 3);
    EntriesFrom(all, 4);
    if extra != [] {
      EntriesFrom(all, 5);
    }
  }

  /** The assignments of the rendered sections are the fields, in order. */
  lemma ConfigEntries(c: Config)
    ensures Entries(Sections(c)) == Fields(c)
  {
    var fs := Fields(c);
    var extra := if c.dynamodbEndpoint != "" then [DatabaseSection(c)] else [];
    EntriesOfFive([JwtSection(c), AwsSection(c), ApplicationSection(c), SecuritySection(c), CorsSection(c)], extra);
    JwtFields(c);
    AwsFields(c);
    ApplicationFields(c);
    SecurityFields(c);
    LastFields(c);
    assert fs == fs[..5] + fs[5..8] + fs[8..11] + fs[11..15] + fs[15..16] + fs[16..];
  }

  /** The headers of the rendered sections. */
  lemma ConfigHeaders(c: Config)
    ensures HeaderList(Sections(c)) ==
      [JwtSection(c).header, AwsSection(c).header, ApplicationSection(c).header,
       SecuritySection(c).header, CorsSection(c).header]
      + (if c.dynamodbEndpoint != "" then [DatabaseSection(c).header] else [])
  {
    var ss := Sections(c);
    assert ss[0..] == ss;
    HeadersFrom(ss, 0);
    HeadersFrom(ss, 1);
    HeadersFrom(ss, 2);
    HeadersFrom(ss, 3);
    HeadersFrom(ss, 4);
    if c.dynamodbEndpoint != "" {
      HeadersFrom(ss, 5);
    }
  }

  /** Reading the rendered lines gives the fields, in order. */
  lemma RenderAssignments(c: Config)
    ensures Assignments(FileLines(c)) == Fields(c)
  {
    ConfigWellFormed(c);
    SectionsRead(Sections(c));
    ConfigEntries(c);
  }

  /** The fields of a record read back as that record. */
  lemma FieldsRead(c: Config)
    ensures FromEntries(Fields(c)) == Some(c)
  {
    var fs := Fields(c);
    assert forall i :: 0 <= i < |fs| ==> fs[i].key == ConfigKeys[i];
  }

  /** Reading back the file written for a record whose values hold no line
      break gives the record back, the endpoint included (an empty one is
      not written and reads back as empty). */
  lemma RoundTrip(c: Config)
    requires SingleLine(c)
    ensures Decode(Render(c)) == Some(c)
  {
    ConfigWellFormed(c);
    ConfigSingleLine(c);
    SectionsSingleLine(Sections(c));
    SplitJoin(FileLines(c));
    RenderAssignments(c);
    FieldsRead(c);
  }

  /** The header comments of the file, in the order written; the Database
      header only with an endpoint. */
  lemma RenderHeaders(c: Config)
    ensures Headers(FileLines(c)) ==
      ["# JWT Configuration", "# AWS Configuration", "# Application Configuration",
       "# Security Configuration", "# CORS Configuration"]
      + (if c.dynamodbEndpoint != "" then ["# Database Configuration"] else [])
  {
    ConfigWellFormed(c);
    SectionsRead(Sections(c));
    ConfigHeaders(c);
  }

  /** The file has a Database section exactly when the endpoint is
      non-empty; no other line can pass for its header. */
  lemma DatabaseHeaderIff(c: Config)
    ensures "# Database Configuration" in FileLines(c) <==> c.dynamodbEndpoint != ""
  {
    var l := FileLines(c);
    var h := "# Database Configuration";
    RenderHeaders(c);
    if c.dynamodbEndpoint != "" {
      HeaderInLines(l, |Headers(l)| - 1);
    } else if h in l {
      var i :| 0 <= i < |l| && l[i] == h;
      HeaderOfComment(l, i);
    }
  }

  /** Every header is a line. */
  lemma {:induction false} HeaderInLines(lines: seq<string>, k: nat)
    requires k < |Headers(lines)|
    ensures Headers(lines)[k] in lines
    decreases |lines|
  {
    if !IsComment(lines[0]) {
      HeaderInLines(lines[1..], k);
    } else if k > 0 {
      HeaderInLines(lines[1..], k - 1);
    }
  }

  lemma {:induction false} LinesAppend(a: seq<Section>, b: seq<Section>)
    ensures Lines(a + b) == Lines(a) + Lines(b)
    decreases |a|
  {
    if a == [] {
      assert a + b == b;
    } else {
      assert (a + b)[0] == a[0];
      assert (a + b)[1..] == a[1..] + b;
      LinesAppend(a[1..], b);
    }
  }

  lemma {:induction false} JoinAppend(a: seq<string>, b: seq<string>)
    ensures Join(a + b) == Join(a) + Join(b)
    decreases |a|
  {
    if a == [] {
      assert a + b == b;
    } else {
      assert (a + b)[0] == a[0];
      assert (a + b)[1..] == a[1..] + b;
      JoinAppend(a[1..], b);
    }
  }

  /** Answering no to the DynamoDB question changes nothing but the three
      lines of the Database section, which are then not written. */
  lemma DatabaseOnlyAddition(c: Config)
    ensures var e := c.dynamodbEndpoint;
      Render(c) == Render(c.(dynamodbEndpoint := ""))
                   + (if e != "" then "# Database Configuration\nDYNAMODB_ENDPOINT=" + e + "\n\n" else "")
  {
    var e := c.dynamodbEndpoint;
    SectionsWithoutEndpoint(c);
    if e != "" {
      AppendOneEntry(Sections(c.(dynamodbEndpoint := "")), "# Database Configuration", "DYNAMODB_ENDPOINT", e);
    }
  }

  /** Appending a one-assignment section appends its three lines of text. */
  lemma AppendOneEntry(ss: seq<Section>, header: string, key: string, value: string)
    ensures Join(Lines(ss + [Section(header, [Entry(key, value)])]))
            == Join(Lines(ss)) + (header + "\n" + key + "=" + value + "\n\n")
  {
    var extra := [Section(header, [Entry(key, value)])];
    LinesAppend(ss, extra);
    JoinAppend(Lines(ss), Lines(extra));
    OneEntryText(header, key, value);
  }

  /** Only the Database section depends on the endpoint. */
  lemma SectionsWithoutEndpoint(c: Config)
    ensures Sections(c) == Sections(c.(dynamodbEndpoint := ""))
                           + (if c.dynamodbEndpoint != "" then [DatabaseSection(c)] else [])
  {
  }

  /** The text of a section with a single assignment. */
  lemma OneEntryText(header: string, key: string, value: string)
    ensures Join(Lines([Section(header, [Entry(key, value)])]))
            == header + "\n" + key + "=" + value + "\n\n"
  {
    var sec := Section(header, [Entry(key, value)]);
    var line := key + "=" + value;
    assert EntryLines(sec.entries) == [line] by {
      assert sec.entries[1..] == [];
    }
    assert Lines([sec]) == SectionLines(sec) by {
      assert [sec][1..] == [];
    }
    var l := [header, line, ""];
    assert Join([""]) == "\n" by {
      assert [""][1..] == [];
    }
    assert Join([line, ""]) == line + "\n" + "\n" by {
      assert [line, ""][1..] == [""];
    }
    assert l[1..] == [line, ""];
  }

  /** The file starts with the JWT header and ends with a blank line, and
      every other header directly follows a blank line: each section ends
      with one. */
  lemma RenderSeparated(c: Config)
    ensures var l := FileLines(c);
      && |l| > 0 && l[0] == "# JWT Configuration" && l[|l| - 1] == ""
      && (forall i :: 0 < i < |l| && IsComment(l[i]) ==> l[i - 1] == "")
  {
    var ss := Sections(c);
    ConfigWellFormed(c);
    SectionsSeparated(ss);
    assert Lines(ss) == SectionLines(ss[0]) + Lines(ss[1..]);
  }
}
