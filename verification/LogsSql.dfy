/** The DuckDB scripts of the log commands (internal/admin/logs.go), read back by a SQL lexer. */
module LogsSql {
  import opened Options
  import Text

  // ----- lexer -----

  datatype Token = Word(text: string) | Literal(text: string) | Symbol(c: char)

  /**
   Lexing one character at a time. Comment openers, quoted identifiers, dollar quotes and prefixed literals such as
   E'..' are refused, so a script that lexes holds none of them.
   */
  datatype State =
    | Normal(word: string, out: seq<Token>)
    | Quoted(text: string, out: seq<Token>)
    | QuoteSeen(text: string, out: seq<Token>)
    | Dash(out: seq<Token>)
    | Slash(out: seq<Token>)
    | Bad

  predicate IsWordChar(c: char) { 'a' <= c <= 'z' || 'A' <= c <= 'Z' || '0' <= c <= '9' || c == '_' }

  function Flush(word: string, out: seq<Token>): seq<Token> { if word == "" then out else out + [Word(word)] }

  function Plain(word: string, out: seq<Token>, c: char): State {
    if IsWordChar(c) then Normal(word + [c], out)
    else if c == '\'' then if word == "" then Quoted("", out) else Bad
    else if c == '"' || c == '$' then Bad
    else
      var out := Flush(word, out);
      if Text.IsSpace(c) then Normal("", out)
      else if c == '-' then Dash(out)
      else if c == '/' then Slash(out)
      else Normal("", out + [Symbol(c)])
  }

  function Step(st: State, c: char): State {
    match st
    case Normal(word, out) => Plain(word, out, c)
    case Quoted(text, out) => if c == '\'' then QuoteSeen(text, out) else Quoted(text + [c], out)
    case QuoteSeen(text, out) => if c == '\'' then Quoted(text + [c], out) else Plain("", out + [Literal(text)], c)
    case Dash(out) => if c == '-' then Bad else Plain("", out + [Symbol('-')], c)
    case Slash(out) => if c == '*' then Bad else Plain("", out + [Symbol('/')], c)
    case Bad => Bad
  }

  function Lexed(s: string, st: State): State
    decreases |s|
  {
    if s == [] then st else Lexed(s[1..], Step(st, s[0]))
  }

  function Lex(s: string): Option<seq<Token>> {
    match Lexed(s, Normal("", []))
    case Normal(word, out) => Some(Flush(word, out))
    case QuoteSeen(text, out) => Some(out + [Literal(text)])
    case Dash(out) => Some(out + [Symbol('-')])
    case Slash(out) => Some(out + [Symbol('/')])
    case Quoted(_, _) => None
    case Bad => None
  }

  // ----- script -----

  /** `strings.ReplaceAll(s, "'", "''")` */
  function Escape(s: string): string {
    if s == [] then [] else (if s[0] == '\'' then "''" else [s[0]]) + Escape(s[1..])
  }

  datatype Filter = Filter(service: string, since: string, until: string, limit: int)

  function Condition(column: string, op: string, value: string): string {
    "\n  " + "AND" + " " + column + op + Escape(value) + "'"
  }

  function Clause(column: string, op: string, value: string): string {
    if value == "" then "" else Condition(column, op, value)
  }

  function SelectFrom(): string { "SELECT" + (" *" + ("\n" + "FROM") + (" " + "read_parquet")) }

  function Where(): string { ")" + ("\n" + "WHERE") + (" " + "1") + ("=" + "1") }

  function OrderBy(): string { ("\n" + "ORDER") + (" " + "BY") + (" " + "ts") + (" " + "DESC") }

  function Source(bucket: string): string {
    SelectFrom() + "('" + ("s3://" + Escape(bucket) + "/**/*.parquet") + "'" + Where()
  }

  function LimitTo(limit: int): string { ("\n" + "LIMIT") + (" " + Text.Decimal(limit)) }

  function Limit(limit: int): string { if limit > 0 then LimitTo(limit) else "" }

  function Query(bucket: string, f: Filter): string {
    Source(bucket) + Clause("service", " = '", f.service) + Clause("ts", " >= '", f.since)
        + Clause("ts", " <  '", f.until)
    + OrderBy() + Limit(f.limit)
  }

  /** `logsBuildSQL`, which grows one buffer. */
  method BuildSQL(bucket: string, f: Filter) returns (sql: string)
    ensures sql == Query(bucket, f)
  {
    hide Source, Condition, OrderBy, LimitTo;
    sql := Source(bucket);
    if f.service != "" {
      sql := sql + Condition("service", " = '", f.service);
    }
    if f.since != "" {
      sql := sql + Condition("ts", " >= '", f.since);
    }
    if f.until != "" {
      sql := sql + Condition("ts", " <  '", f.until);
    }
    sql := sql + OrderBy();
    if f.limit > 0 {
      sql := sql + LimitTo(f.limit);
    }
  }

  /** The host without its scheme, and whether to use TLS; an empty endpoint is an error. */
  function ParseEndpoint(endpoint: string): (parsed: Option<(string, bool)>)
    ensures parsed.None? <==> endpoint == ""
  {
    if endpoint == "" then None
    else if "https://" <= endpoint then Some((endpoint[8..], true))
    else if "http://" <= endpoint then Some((endpoint[7..], false))
    else Some((endpoint, false))
  }

  function Set(name: string, value: string): string { "SET" + (" " + name) + "='" + Escape(value) + "'" + ";\n" }

  function Prelude(host: string, useSSL: bool, access: string, secret: string): string {
    ("INSTALL" + (" " + "httpfs") + ";\n")
    + ("LOAD" + (" " + "httpfs") + ";\n")
    + Set("s3_endpoint", host)
    + UseSSL(useSSL)
    + Set("s3_url_style", "path")
    + Set("s3_access_key_id", access)
    + Set("s3_secret_access_key", secret)
  }

  function UseSSL(useSSL: bool): string {
    "SET" + (" " + "s3_use_ssl") + ("=" + if useSSL then "true" else "false") + ";\n"
  }

  /** `COPY (body) TO 'target' (FORMAT 'format')` */
  function CopyTo(body: string, target: string, format: string): string {
    "COPY" + " (" + body + (")" + (" " + "TO") + " '" + Escape(target) + "'")
    + (" " + ("(" + "FORMAT") + " '" + Escape(format) + "'" + ")")
  }

  function Target(output: string): string { if output == "-" then "/dev/stdout" else output }

  /** The template the export command hands to `fmt.Sprintf`. */
  function Wrapper(output: string, format: string): string { CopyTo("%s", Target(output), format) }

  const MISSING := "(MISSING)"

  /** The directive that names the first argument outright. */
  const INDEXED := "%[1]s"

  /** Flags, width, precision and argument indexes may stand between `%` and the verb. */
  predicate IsModifier(c: char) { c in "#0+- 123456789.*[" }

  /**
   `fmt.Sprintf` with one argument, `spent` once a directive has used it: `%%` writes a percent sign, `%s` the argument
   the first time, `%[1]s` the argument any time, and any other plain verb behind the last argument an error marker.
   None stands for the directives outside this model: those with other modifiers, and a first verb other than `%s`.
   */
  function Sprintf(format: string, arg: string, spent: bool): Option<string>
    decreases |format|
  {
    if format == [] then if spent then Some([]) else None
    else if format[0] != '%' then Prepend([format[0]], Sprintf(format[1..], arg, spent))
    else if |format| < 2 then None
    else if format[1] == '%' then Prepend("%", Sprintf(format[2..], arg, spent))
    else if INDEXED <= format then Prepend(arg, Sprintf(format[5..], arg, true))
    else if spent && !IsModifier(format[1]) then Prepend("%!" + [format[1]] + MISSING, Sprintf(format[2..], arg, true))
    else if !spent && format[1] == 's' then Prepend(arg, Sprintf(format[2..], arg, true))
    else None
  }

  function Prepend(a: string, r: Option<string>): Option<string> { if r.Some? then Some(a + r.value) else None }

  /** `OtherDirective`: the export template holds a directive outside the model of Sprintf. */
  datatype Assembled = Assembled(text: string) | OtherDirective | NoEndpoint

  /** `assembleSQL`: the user's SQL or the structured query, wrapped for export when asked, behind the prelude. */
  method AssembleSQL(override: string, bucket: string, f: Filter, wrap: string, endpoint: string, access: string,
      secret: string)
    returns (script: Assembled)
    ensures script == Script(if override == "" then Query(bucket, f) else override, wrap, endpoint, access, secret)
    ensures script.NoEndpoint? <==> endpoint == ""
  {
    var body := override;
    if body == "" {
      body := BuildSQL(bucket, f);
    }
    body := Text.TrimRight(Text.TrimSpace(body), ';');
    var outside := false;
    if wrap != "" {
      var wrapped := Sprintf(wrap, body, false);
      if wrapped.None? {
        outside := true;
      } else {
        body := wrapped.value;
      }
    }
    var parsed := ParseEndpoint(endpoint);
    if parsed.None? {
      return NoEndpoint;
    }
    if outside {
      return OtherDirective;
    }
    return Assembled(Prelude(parsed.value.0, parsed.value.1, access, secret) + body + ";\n");
  }

  function Script(body: string, wrap: string, endpoint: string, access: string, secret: string): Assembled {
    var body := Text.TrimRight(Text.TrimSpace(body), ';');
    var wrapped := if wrap == "" then Some(body) else Sprintf(wrap, body, false);
    var parsed := ParseEndpoint(endpoint);
    if parsed.None? then NoEndpoint
    else if wrapped.None? then OtherDirective
    else Assembled(Prelude(parsed.value.0, parsed.value.1, access, secret) + wrapped.value + ";\n")
  }

  // ----- what it lexes to -----

  function ClauseTokens(column: string, op: seq<Token>, value: string): seq<Token> {
    if value == "" then [] else [Word("AND"), Word(column)] + op + [Literal(value)]
  }

  function SourceTokens(bucket: string): seq<Token> {
    [Word("SELECT"), Symbol('*'), Word("FROM"), Word("read_parquet")]
        + [Symbol('('), Literal("s3://" + bucket + "/**/*.parquet")]
    + [Symbol(')'), Word("WHERE"), Word("1"), Symbol('='), Word("1")]
  }

  function LimitTokens(limit: int): seq<Token> { if limit > 0 then [Word("LIMIT"), Word(Text.Decimal(limit))] else [] }

  function QueryTokens(bucket: string, f: Filter): seq<Token> {
    SourceTokens(bucket)
    + ClauseTokens("service", [Symbol('=')], f.service)
    + ClauseTokens("ts", [Symbol('>'), Symbol('=')], f.since)
    + ClauseTokens("ts", [Symbol('<')], f.until)
    + [Word("ORDER"), Word("BY"), Word("ts"), Word("DESC")]
    + LimitTokens(f.limit)
  }

  function SetTokens(name: string, value: Token): seq<Token> { [Word("SET"), Word(name), Symbol('='), value] }

  function PreludeStatements(host: string, useSSL: bool, access: string, secret: string): seq<seq<Token>> {
    [[Word("INSTALL"), Word("httpfs")],
     [Word("LOAD"), Word("httpfs")],
     SetTokens("s3_endpoint", Literal(host)),
     SetTokens("s3_use_ssl", Word(if useSSL then "true" else "false")),
     SetTokens("s3_url_style", Literal("path")),
     SetTokens("s3_access_key_id", Literal(access)),
     SetTokens("s3_secret_access_key", Literal(secret))]
  }

  function Terminated(statements: seq<seq<Token>>): seq<Token> {
    if statements == [] then []
        else Terminated(statements[..|statements| - 1]) + statements[|statements| - 1] + [Symbol(';')]
  }

  // ----- proofs: running the lexer over parts -----

  lemma {:induction false} LexedApp(a: string, b: string, st: State)
    ensures Lexed(a + b, st) == Lexed(b, Lexed(a, st))
    decreases |a|
  {
    if a == [] {
      assert a + b == b;
    } else {
      assert (a + b)[1..] == a[1..] + b;
      LexedApp(a[1..], b, Step(st, a[0]));
    }
  }

  lemma LexedShort(s: string, st: State)
    ensures |s| == 1 ==> Lexed(s, st) == Step(st, s[0])
    ensures |s| == 2 ==> Lexed(s, st) == Step(Step(st, s[0]), s[1])
    ensures |s| == 3 ==> Lexed(s, st) == Step(Step(Step(st, s[0]), s[1]), s[2])
    ensures |s| == 4 ==> Lexed(s, st) == Step(Step(Step(Step(st, s[0]), s[1]), s[2]), s[3])
    ensures |s| == 5 ==> Lexed(s, st) == Step(Step(Step(Step(Step(st, s[0]), s[1]), s[2]), s[3]), s[4])
  {
    hide Step;
    if 1 <= |s| <= 5 {
      var t := s[1..];
      var st1 := Step(st, s[0]);
      assert Lexed(s, st) == Lexed(t, st1);
      if |t| > 0 {
        var u, st2 := t[1..], Step(st1, t[0]);
        assert Lexed(t, st1) == Lexed(u, st2);
        if |u| > 0 {
          var v, st3 := u[1..], Step(st2, u[0]);
          assert Lexed(u, st2) == Lexed(v, st3);
          if |v| > 0 {
            var w, st4 := v[1..], Step(st3, v[0]);
            assert Lexed(v, st3) == Lexed(w, st4);
          }
        }
      }
    }
  }

  predicate AllWordChars(s: string) { forall i :: 0 <= i < |s| ==> IsWordChar(s[i]) }

  lemma {:induction false} LexedWord(w: string, v: string, out: seq<Token>)
    requires AllWordChars(w)
    ensures Lexed(w, Normal(v, out)) == Normal(v + w, out)
    decreases |w|
  {
    if w == [] {
      assert v + w == v;
    } else {
      LexedWord(w[1..], v + [w[0]], out);
      assert v + [w[0]] + w[1..] == v + w;
    }
  }

  /** The heart of it: inside a literal, escaped text reads back as the text itself, whatever it holds. */
  lemma {:induction false} LexedEscaped(x: string, text: string, out: seq<Token>)
    ensures Lexed(Escape(x), Quoted(text, out)) == Quoted(text + x, out)
    decreases |x|
  {
    if x == [] {
      assert text + x == text;
    } else {
      var head := if x[0] == '\'' then "''" else [x[0]];
      LexedApp(head, Escape(x[1..]), Quoted(text, out));
      LexedShort(head, Quoted(text, out));
      LexedEscaped(x[1..], text + [x[0]], out);
      assert text + [x[0]] + x[1..] == text + x;
    }
  }

  lemma {:induction false} EscapePlain(s: string)
    requires '\'' !in s
    ensures Escape(s) == s
  {
    if s != [] {
      EscapePlain(s[1..]);
      assert [s[0]] + s[1..] == s;
    }
  }

  // ----- proofs: the parts of the script -----

  /** Between parts the lexer has a finished word or literal in hand. */
  predicate Settleable(st: State) { st.Normal? || st.QuoteSeen? }

  function Settled(st: State): seq<Token>
    requires Settleable(st)
  {
    match st
    case Normal(word, out) => Flush(word, out)
    case QuoteSeen(text, out) => out + [Literal(text)]
  }

  /** From here a part adds its own tokens and nothing else. */
  predicate Adds(part: string, tokens: seq<Token>, st: State) {
    Settleable(st) && Settleable(Lexed(part, st)) && Settled(Lexed(part, st)) == Settled(st) + tokens
  }

  lemma AddsApp(a: string, ta: seq<Token>, b: string, tb: seq<Token>, st: State)
    requires Adds(a, ta, st) && Adds(b, tb, Lexed(a, st))
    ensures Adds(a + b, ta + tb, st)
  {
    hide Lexed, Settled;
    LexedApp(a, b, st);
    assert Settled(st) + ta + tb == Settled(st) + (ta + tb);
  }

  /** A literal between its quotes, then whatever follows. */
  lemma LexedLiteral(x: string, out: seq<Token>)
    ensures Lexed(Escape(x) + "'", Quoted("", out)) == QuoteSeen(x, out)
  {
    LexedApp(Escape(x), "'", Quoted("", out));
    LexedEscaped(x, "", out);
    LexedShort("'", Quoted(x, out));
    assert "" + x == x;
  }

  function OpTokens(op: string): seq<Token> {
    if op == " = '" then [Symbol('=')] else if op == " >= '" then [Symbol('>'), Symbol('=')] else [Symbol('<')]
  }

  lemma LexedOp(op: string, column: string, out: seq<Token>)
    requires column != "" && op in [" = '", " >= '", " <  '"]
    ensures Lexed(op, Normal(column, out)) == Quoted("", out + [Word(column)] + OpTokens(op))
  {
    LexedShort(op, Normal(column, out));
    hide Lexed;
    var out := out + [Word(column)];
    if op == " = '" {
    } else if op == " >= '" {
      assert out + [Symbol('>')] + [Symbol('=')] == out + [Symbol('>'), Symbol('=')];
    }
  }

  lemma LexedOpen(st: State)
    requires Settleable(st)
    ensures Lexed("\n  ", st) == Normal("", Settled(st))
    ensures Lexed("\n", st) == Normal("", Settled(st))
    ensures Lexed(" ", st) == Normal("", Settled(st))
  {
    LexedShort("\n  ", st);
    LexedShort("\n", st);
    LexedShort(" ", st);
  }

  /** A word after a separator and before a space. */
  lemma LexedWordSpace(w: string, out: seq<Token>)
    requires w != "" && AllWordChars(w)
    ensures Lexed(w, Normal("", out)) == Normal(w, out)
    ensures Lexed(w + " ", Normal("", out)) == Normal("", out + [Word(w)])
  {
    LexedWord(w, "", out);
    assert "" + w == w;
    LexedApp(w, " ", Normal("", out));
    LexedOpen(Normal(w, out));
  }

  /** Three parts in a row. */
  lemma LexedApp3(a: string, b: string, c: string, st: State)
    ensures Lexed(a + b + c, st) == Lexed(c, Lexed(b, Lexed(a, st)))
  {
    hide Lexed;
    LexedApp(a + b, c, st);
    LexedApp(a, b, st);
  }

  lemma ConditionLexed(column: string, op: string, value: string, st: State)
    requires column != "" && AllWordChars(column) && op in [" = '", " >= '", " <  '"] && Settleable(st)
    ensures Lexed(Condition(column, op, value), st)
      == QuoteSeen(value, Settled(st) + [Word("AND")] + [Word(column)] + OpTokens(op))
  {
    hide Lexed, Settled, Escape, OpTokens;
    assert AllWordChars("AND");
    hide AllWordChars;
    var out := Settled(st) + [Word("AND")];
    LexedApp3("\n  ", "AND", " ", st);
    LexedOpen(st);
    LexedWordSpace("AND", Settled(st));
    LexedApp("AND", " ", Normal("", Settled(st)));
    var open := "\n  " + "AND" + " ";
    assert Lexed(open, st) == Normal("", out);
    LexedApp3(open, column, op, st);
    LexedWordSpace(column, out);
    LexedOp(op, column, out);
    LexedApp3(open + column + op, Escape(value), "'", st);
    LexedApp(Escape(value), "'", Quoted("", out + [Word(column)] + OpTokens(op)));
    LexedLiteral(value, out + [Word(column)] + OpTokens(op));
  }

  lemma ConditionAdds(column: string, op: string, value: string, st: State)
    requires column != "" && AllWordChars(column) && op in [" = '", " >= '", " <  '"] && Settleable(st)
    ensures Adds(Condition(column, op, value), [Word("AND"), Word(column)] + OpTokens(op) + [Literal(value)], st)
  {
    hide Lexed, Condition, OpTokens;
    ConditionLexed(column, op, value, st);
    assert Settled(st) + [Word("AND")] + [Word(column)] + OpTokens(op) + [Literal(value)]
        == Settled(st) + ([Word("AND"), Word(column)] + OpTokens(op) + [Literal(value)]);
  }

  lemma Keywords()
    ensures forall w :: w in ["SELECT", "FROM", "read_parquet", "WHERE", "1", "ORDER", "BY", "ts", "DESC", "LIMIT"] ==>
      AllWordChars(w)
  {
  }

  lemma CommandWords()
    ensures forall w :: w in ["INSTALL", "LOAD", "httpfs", "SET", "COPY", "TO", "FORMAT", "true", "false"] ==>
      AllWordChars(w)
  {
  }

  predicate Separator(c: char) { !IsWordChar(c) && c !in ['\'', '"', '$', '-', '/'] }

  function SeparatorTokens(c: char): seq<Token> { if Text.IsSpace(c) then [] else [Symbol(c)] }

  lemma SeparatorLexed(c: char, st: State)
    requires Separator(c) && Settleable(st)
    ensures Lexed([c], st) == Normal("", Settled(st) + SeparatorTokens(c))
  {
    LexedShort([c], st);
    hide Lexed;
  }

  /** A part that adds its tokens wherever it stands. */
  ghost predicate AlwaysAdds(part: string, tokens: seq<Token>) {
    forall st {:trigger Adds(part, tokens, st)} :: Settleable(st) ==> Adds(part, tokens, st)
  }

  lemma AlwaysApp(a: string, ta: seq<Token>, b: string, tb: seq<Token>)
    requires AlwaysAdds(a, ta) && AlwaysAdds(b, tb)
    ensures AlwaysAdds(a + b, ta + tb)
  {
    forall st | Settleable(st) ensures Adds(a + b, ta + tb, st) {
      hide Lexed, Settled;
      assert Adds(a, ta, st);
      assert Adds(b, tb, Lexed(a, st));
      AddsApp(a, ta, b, tb, st);
    }
  }

  /** A separator and the word after it. */
  lemma PieceAdds(sep: string, w: string)
    requires |sep| == 1 && Separator(sep[0]) && AllWordChars(w) && w != ""
    ensures AlwaysAdds(sep + w, SeparatorTokens(sep[0]) + [Word(w)])
  {
    forall st | Settleable(st) ensures Adds(sep + w, SeparatorTokens(sep[0]) + [Word(w)], st) {
      assert sep == [sep[0]];
      hide Lexed, SeparatorTokens;
      LexedApp(sep, w, st);
      SeparatorLexed(sep[0], st);
      LexedWordSpace(w, Settled(st) + SeparatorTokens(sep[0]));
      assert Settled(st) + SeparatorTokens(sep[0]) + [Word(w)] == Settled(st) + (SeparatorTokens(sep[0]) + [Word(w)]);
    }
  }

  /** White space and the word after it. */
  lemma SpacedAdds(sep: string, w: string)
    requires sep in ["\n", " "] && AllWordChars(w) && w != ""
    ensures AlwaysAdds(sep + w, [Word(w)])
  {
    hide AlwaysAdds;
    PieceAdds(sep, w);
    assert [] + [Word(w)] == [Word(w)];
  }

  lemma SymbolAdds(s: string, c: char)
    requires Separator(c) && !Text.IsSpace(c) && s in [[c], [' ', c]]
    ensures AlwaysAdds(s, [Symbol(c)])
  {
    forall st | Settleable(st) ensures Adds(s, [Symbol(c)], st) {
      LexedShort(s, st);
      hide Lexed;
    }
  }

  lemma SelectFromAdds(out: seq<Token>)
    ensures Adds(SelectFrom(), [Word("SELECT"), Symbol('*'), Word("FROM"), Word("read_parquet")], Normal("", out))
  {
    Keywords();
    hide AllWordChars, AlwaysAdds, Adds, Lexed;
    SymbolAdds(" *", '*');
    SpacedAdds("\n", "FROM");
    SpacedAdds(" ", "read_parquet");
    AlwaysApp(" *", [Symbol('*')], "\n" + "FROM", [Word("FROM")]);
    AlwaysApp(" *" + ("\n" + "FROM"), [Symbol('*')] + [Word("FROM")], " " + "read_parquet", [Word("read_parquet")]);
    WordThen("SELECT", " *" + ("\n" + "FROM") + (" " + "read_parquet"),
        [Symbol('*')] + [Word("FROM")] + [Word("read_parquet")], out);
    assert [Word("SELECT")] + ([Symbol('*')] + [Word("FROM")] + [Word("read_parquet")])
        == [Word("SELECT"), Symbol('*'), Word("FROM"), Word("read_parquet")];
  }

  lemma WordThen(w: string, rest: string, tokens: seq<Token>, out: seq<Token>)
    requires AllWordChars(w) && w != "" && AlwaysAdds(rest, tokens)
    ensures Adds(w + rest, [Word(w)] + tokens, Normal("", out))
  {
    LexedWordSpace(w, out);
    assert Adds(w, [Word(w)], Normal("", out));
    assert Adds(rest, tokens, Lexed(w, Normal("", out)));
    AddsApp(w, [Word(w)], rest, tokens, Normal("", out));
  }

  lemma WhereAdds()
    ensures AlwaysAdds(Where(), [Symbol(')'), Word("WHERE"), Word("1"), Symbol('='), Word("1")])
  {
    Keywords();
    hide AllWordChars, AlwaysAdds;
    SymbolAdds(")", ')');
    SpacedAdds("\n", "WHERE");
    SpacedAdds(" ", "1");
    PieceAdds("=", "1");
    AlwaysApp(")", [Symbol(')')], "\n" + "WHERE", [Word("WHERE")]);
    AlwaysApp(")" + ("\n" + "WHERE"), [Symbol(')')] + [Word("WHERE")], " " + "1", [Word("1")]);
    AlwaysApp(")" + ("\n" + "WHERE") + (" " + "1"), [Symbol(')')] + [Word("WHERE")] + [Word("1")], "=" + "1",
        [Symbol('=')] + [Word("1")]);
    assert [Symbol(')')] + [Word("WHERE")] + [Word("1")] + ([Symbol('=')] + [Word("1")])
        == [Symbol(')'), Word("WHERE"), Word("1"), Symbol('='), Word("1")];
  }

  lemma OrderByAdds()
    ensures AlwaysAdds(OrderBy(), [Word("ORDER"), Word("BY"), Word("ts"), Word("DESC")])
  {
    Keywords();
    hide AllWordChars, AlwaysAdds;
    SpacedAdds("\n", "ORDER");
    SpacedAdds(" ", "BY");
    SpacedAdds(" ", "ts");
    SpacedAdds(" ", "DESC");
    AlwaysApp("\n" + "ORDER", [Word("ORDER")], " " + "BY", [Word("BY")]);
    AlwaysApp(("\n" + "ORDER") + (" " + "BY"), [Word("ORDER")] + [Word("BY")], " " + "ts", [Word("ts")]);
    AlwaysApp(("\n" + "ORDER") + (" " + "BY") + (" " + "ts"), [Word("ORDER")] + [Word("BY")] + [Word("ts")],
        " " + "DESC", [Word("DESC")]);
    assert [Word("ORDER")] + [Word("BY")] + [Word("ts")] + [Word("DESC")]
        == [Word("ORDER"), Word("BY"), Word("ts"), Word("DESC")];
  }

  lemma DecimalIsWord(n: int)
    requires n > 0
    ensures Text.Decimal(n) != "" && AllWordChars(Text.Decimal(n))
  {
    assert Text.AllDigits(Text.Decimal(n));
  }

  lemma LimitAdds(limit: int)
    ensures AlwaysAdds(Limit(limit), LimitTokens(limit))
  {
    if limit > 0 {
      Keywords();
      DecimalIsWord(limit);
      hide AllWordChars, Text.Decimal, AlwaysAdds;
      var n := Text.Decimal(limit);
      assert [Word("LIMIT")] + [Word(n)] == [Word("LIMIT"), Word(n)];
      SpacedAdds("\n", "LIMIT");
      SpacedAdds(" ", n);
      AlwaysApp("\n" + "LIMIT", [Word("LIMIT")], " " + n, [Word(n)]);
    }
  }

  lemma OpenLexed(call: string, tokens: seq<Token>, out: seq<Token>)
    requires Adds(call, tokens, Normal("", out))
    ensures Lexed(call + "('", Normal("", out)) == Quoted("", out + tokens + [Symbol('(')])
  {
    var st := Lexed(call, Normal("", out));
    LexedApp(call, "('", Normal("", out));
    LexedShort("('", st);
    hide Lexed;
  }

  lemma CloseLexed(open: string, x: string, st: State, out: seq<Token>)
    requires Lexed(open, st) == Quoted("", out)
    ensures Lexed(open + Escape(x) + "'", st) == QuoteSeen(x, out)
  {
    hide Lexed, Escape;
    LexedLiteral(x, out);
    LexedApp(open, Escape(x) + "'", st);
    assert open + (Escape(x) + "'") == open + Escape(x) + "'";
  }

  /** An opening parenthesis and a literal behind a word, then more. */
  lemma CallLexed(call: string, tokens: seq<Token>, x: string, rest: string, tokens': seq<Token>, out: seq<Token>)
    requires Adds(call, tokens, Normal("", out)) && AlwaysAdds(rest, tokens')
    ensures Adds(call + "('" + Escape(x) + "'" + rest, tokens + [Symbol('('), Literal(x)] + tokens', Normal("", out))
  {
    var st, o := Normal("", out), out + tokens + [Symbol('(')];
    var part, added := call + "('" + Escape(x) + "'", tokens + [Symbol('('), Literal(x)];
    OpenLexed(call, tokens, out);
    CloseLexed(call + "('", x, st, o);
    assert Adds(rest, tokens', QuoteSeen(x, o));
    assert Adds(part, added, st) by {
      hide Lexed, Escape, AlwaysAdds;
      assert o + [Literal(x)] == out + added;
    }
    hide *;
    AddsApp(part, added, rest, tokens', st);
  }

  lemma {:induction false} EscapeApp(a: string, b: string)
    ensures Escape(a + b) == Escape(a) + Escape(b)
  {
    if a == [] {
      assert a + b == b;
    } else {
      assert (a + b)[1..] == a[1..] + b;
      EscapeApp(a[1..], b);
    }
  }

  lemma UriEscaped(bucket: string)
    ensures Escape("s3://" + bucket + "/**/*.parquet") == "s3://" + Escape(bucket) + "/**/*.parquet"
  {
    assert '\'' !in "s3://" && '\'' !in "/**/*.parquet";
    hide Escape;
    EscapePlain("s3://");
    EscapePlain("/**/*.parquet");
    EscapeApp("s3://", bucket);
    EscapeApp("s3://" + bucket, "/**/*.parquet");
  }

  lemma SourceParts(bucket: string)
    ensures Source(bucket) == SelectFrom() + "('" + Escape("s3://" + bucket + "/**/*.parquet") + "'" + Where()
  {
    hide Escape, SelectFrom, Where;
    UriEscaped(bucket);
  }

  lemma SourceAdds(bucket: string, out: seq<Token>)
    ensures Adds(Source(bucket), SourceTokens(bucket), Normal("", out))
  {
    SourceParts(bucket);
    hide Escape, SelectFrom, Where, Adds, AlwaysAdds, Source;
    SelectFromAdds(out);
    WhereAdds();
    CallLexed(SelectFrom(), [Word("SELECT"), Symbol('*'), Word("FROM"), Word("read_parquet")],
        "s3://" + bucket + "/**/*.parquet",
        Where(), [Symbol(')'), Word("WHERE"), Word("1"), Symbol('='), Word("1")], out);
  }

  lemma ClauseAdds(column: string, op: string, value: string)
    requires column in ["service", "ts"] && op in [" = '", " >= '", " <  '"]
    ensures AlwaysAdds(Clause(column, op, value), ClauseTokens(column, OpTokens(op), value))
  {
    if value != "" {
      assert column != "" && AllWordChars(column);
      hide Lexed, Condition, OpTokens, AllWordChars, Adds;
      forall st | Settleable(st)
        ensures Adds(Condition(column, op, value), ClauseTokens(column, OpTokens(op), value), st) {
        ConditionAdds(column, op, value, st);
      }
    }
  }

  /** The part of a query behind its source. */
  function Rest(f: Filter): string {
    Clause("service", " = '", f.service) + Clause("ts", " >= '", f.since) + Clause("ts", " <  '", f.until) + OrderBy()
        + Limit(f.limit)
  }

  function RestTokens(f: Filter): seq<Token> {
    ClauseTokens("service", [Symbol('=')], f.service) + ClauseTokens("ts", [Symbol('>'), Symbol('=')], f.since)
    + ClauseTokens("ts", [Symbol('<')], f.until) + [Word("ORDER"), Word("BY"), Word("ts"), Word("DESC")]
        + LimitTokens(f.limit)
  }

  lemma RestAdds(f: Filter)
    ensures AlwaysAdds(Rest(f), RestTokens(f))
  {
    assert OpTokens(" = '") == [Symbol('=')] && OpTokens(" >= '") == [Symbol('>'), Symbol('=')]
        && OpTokens(" <  '") == [Symbol('<')];
    hide AlwaysAdds, Clause, OpTokens, ClauseTokens, OrderBy, Limit, LimitTokens;
    var a, ta := Clause("service", " = '", f.service), ClauseTokens("service", [Symbol('=')], f.service);
    var b, tb := Clause("ts", " >= '", f.since), ClauseTokens("ts", [Symbol('>'), Symbol('=')], f.since);
    var c, tc := Clause("ts", " <  '", f.until), ClauseTokens("ts", [Symbol('<')], f.until);
    var td := [Word("ORDER"), Word("BY"), Word("ts"), Word("DESC")];
    ClauseAdds("service", " = '", f.service);
    ClauseAdds("ts", " >= '", f.since);
    ClauseAdds("ts", " <  '", f.until);
    OrderByAdds();
    LimitAdds(f.limit);
    AlwaysApp(a, ta, b, tb);
    AlwaysApp(a + b, ta + tb, c, tc);
    AlwaysApp(a + b + c, ta + tb + tc, OrderBy(), td);
    AlwaysApp(a + b + c + OrderBy(), ta + tb + tc + td, Limit(f.limit), LimitTokens(f.limit));
  }

  /**
   The structured query lexes to its fixed shape with the caller's strings as literals, from any clean lexer state.
   */
  lemma QueryAdds(bucket: string, f: Filter, out: seq<Token>)
    ensures Adds(Query(bucket, f), QueryTokens(bucket, f), Normal("", out))
  {
    var st := Normal("", out);
    SourceAdds(bucket, out);
    RestAdds(f);
    hide Lexed, Settled, Source, SourceTokens, Clause, ClauseTokens, OrderBy, Limit, LimitTokens;
    assert Adds(Rest(f), RestTokens(f), Lexed(Source(bucket), st));
    AddsApp(Source(bucket), SourceTokens(bucket), Rest(f), RestTokens(f), st);
    assert Query(bucket, f) == Source(bucket) + Rest(f);
    assert QueryTokens(bucket, f) == SourceTokens(bucket) + RestTokens(f);
  }

  // ----- the prelude -----

  /** A whole statement, from one clean state to the next. */
  predicate Statement(part: string, tokens: seq<Token>, out: seq<Token>) {
    Lexed(part, Normal("", out)) == Normal("", out + tokens + [Symbol(';')])
  }

  lemma EndStatement(part: string, tokens: seq<Token>, out: seq<Token>)
    requires Adds(part, tokens, Normal("", out))
    ensures Statement(part + ";\n", tokens, out)
  {
    LexedApp(part, ";\n", Normal("", out));
    LexedShort(";\n", Lexed(part, Normal("", out)));
    hide Lexed;
  }

  lemma CommandLexed(command: string, out: seq<Token>)
    requires command in ["INSTALL", "LOAD"]
    ensures Statement(command + (" " + "httpfs") + ";\n", [Word(command), Word("httpfs")], out)
  {
    CommandWords();
    hide AllWordChars, Adds, AlwaysAdds, Statement;
    SpacedAdds(" ", "httpfs");
    WordThen(command, " " + "httpfs", [Word("httpfs")], out);
    assert [Word(command)] + [Word("httpfs")] == [Word(command), Word("httpfs")];
    EndStatement(command + (" " + "httpfs"), [Word(command), Word("httpfs")], out);
  }

  const SETTINGS: seq<string> :=
      ["s3_endpoint", "s3_use_ssl", "s3_url_style", "s3_access_key_id", "s3_secret_access_key"]

  lemma SettingsAreWords(name: string)
    requires name in SETTINGS
    ensures name != "" && AllWordChars(name)
  {
  }

  lemma SetLexed(name: string, value: string, out: seq<Token>)
    requires name in SETTINGS
    ensures Statement(Set(name, value), SetTokens(name, Literal(value)), out)
  {
    CommandWords();
    SettingsAreWords(name);
    var a := "SET" + (" " + name);
    var st := Normal("", out);
    assert Adds(a, [Word("SET"), Word(name)], st) by {
      hide AllWordChars, Adds, AlwaysAdds;
      SpacedAdds(" ", name);
      WordThen("SET", " " + name, [Word(name)], out);
      assert [Word("SET")] + [Word(name)] == [Word("SET"), Word(name)];
    }
    hide AllWordChars, AlwaysAdds;
    AssignLexed(a, [Word("SET"), Word(name)], value, out);
    assert [Word("SET"), Word(name)] + [Symbol('='), Literal(value)] == SetTokens(name, Literal(value));
    hide Adds;
    EndStatement(a + "='" + Escape(value) + "'", SetTokens(name, Literal(value)), out);
  }

  lemma AssignLexed(a: string, tokens: seq<Token>, value: string, out: seq<Token>)
    requires Adds(a, tokens, Normal("", out))
    ensures Adds(a + "='" + Escape(value) + "'", tokens + [Symbol('='), Literal(value)], Normal("", out))
  {
    var st := Normal("", out);
    LexedShort("='", Lexed(a, st));
    hide Lexed, Escape;
    var o := out + tokens + [Symbol('=')];
    LexedApp3(a, "='", Escape(value), st);
    LexedApp(a + "='" + Escape(value), "'", st);
    LexedApp(Escape(value), "'", Quoted("", o));
    LexedLiteral(value, o);
    assert o + [Literal(value)] == out + (tokens + [Symbol('='), Literal(value)]);
  }

  lemma UseSSLLexed(useSSL: bool, out: seq<Token>)
    ensures Statement(UseSSL(useSSL), SetTokens("s3_use_ssl", Word(if useSSL then "true" else "false")), out)
  {
    CommandWords();
    SettingsAreWords("s3_use_ssl");
    var w := if useSSL then "true" else "false";
    hide AllWordChars, Adds, AlwaysAdds, Statement;
    SpacedAdds(" ", "s3_use_ssl");
    PieceAdds("=", w);
    AlwaysApp(" " + "s3_use_ssl", [Word("s3_use_ssl")], "=" + w, [Symbol('=')] + [Word(w)]);
    WordThen("SET", " " + "s3_use_ssl" + ("=" + w), [Word("s3_use_ssl")] + ([Symbol('=')] + [Word(w)]), out);
    assert [Word("SET")] + ([Word("s3_use_ssl")] + ([Symbol('=')] + [Word(w)])) == SetTokens("s3_use_ssl", Word(w));
    assert "SET" + (" " + "s3_use_ssl" + ("=" + w)) == "SET" + (" " + "s3_use_ssl") + ("=" + w);
    EndStatement("SET" + (" " + "s3_use_ssl") + ("=" + w), SetTokens("s3_use_ssl", Word(w)), out);
  }

  ghost predicate Lexes(script: string, statements: seq<seq<Token>>) {
    Lexed(script, Normal("", [])) == Normal("", Terminated(statements))
  }

  lemma LexesApp(script: string, statements: seq<seq<Token>>, part: string, tokens: seq<Token>)
    requires Lexes(script, statements) && Statement(part, tokens, Terminated(statements))
    ensures Lexes(script + part, statements + [tokens])
  {
    LexedApp(script, part, Normal("", []));
    assert (statements + [tokens])[..|statements|] == statements;
    hide Lexed;
  }

  /**
   The prelude leaves the lexer clean after exactly its seven statements, so no credential can leak into the query.
   */
  lemma PreludeLexes(host: string, useSSL: bool, access: string, secret: string)
    ensures Lexes(Prelude(host, useSSL, access, secret), PreludeStatements(host, useSSL, access, secret))
  {
    var t := PreludeStatements(host, useSSL, access, secret);
    assert Lexes("", []);
    hide Lexes, Statement, Set, UseSSL, Terminated;
    var p1 := "INSTALL" + (" " + "httpfs") + ";\n";
    CommandLexed("INSTALL", Terminated([]));
    LexesApp("", [], p1, t[0]);
    assert "" + p1 == p1;
    var p2 := p1 + ("LOAD" + (" " + "httpfs") + ";\n");
    CommandLexed("LOAD", Terminated([] + [t[0]]));
    LexesApp(p1, [] + [t[0]], "LOAD" + (" " + "httpfs") + ";\n", t[1]);
    assert [] + [t[0]] + [t[1]] == t[..2];
    SettingsLex(p2, host, useSSL, access, secret);
  }

  lemma SettingsLex(p2: string, host: string, useSSL: bool, access: string, secret: string)
    requires Lexes(p2, PreludeStatements(host, useSSL, access, secret)[..2])
    ensures Lexes(p2 + Set("s3_endpoint", host) + UseSSL(useSSL) + Set("s3_url_style", "path")
      + Set("s3_access_key_id", access)
                  + Set("s3_secret_access_key", secret), PreludeStatements(host, useSSL, access, secret))
  {
    var t := PreludeStatements(host, useSSL, access, secret);
    hide Lexes, Statement, Set, UseSSL, Terminated;
    assert t[..2] + [t[2]] == t[..3] && t[..3] + [t[3]] == t[..4] && t[..4] + [t[4]] == t[..5];
    assert t[..5] + [t[5]] == t[..6] && t[..6] + [t[6]] == t;
    SetLexed("s3_endpoint", host, Terminated(t[..2]));
    LexesApp(p2, t[..2], Set("s3_endpoint", host), t[2]);
    var p3 := p2 + Set("s3_endpoint", host);
    UseSSLLexed(useSSL, Terminated(t[..3]));
    LexesApp(p3, t[..3], UseSSL(useSSL), t[3]);
    var p4 := p3 + UseSSL(useSSL);
    SetLexed("s3_url_style", "path", Terminated(t[..4]));
    LexesApp(p4, t[..4], Set("s3_url_style", "path"), t[4]);
    var p5 := p4 + Set("s3_url_style", "path");
    SetLexed("s3_access_key_id", access, Terminated(t[..5]));
    LexesApp(p5, t[..5], Set("s3_access_key_id", access), t[5]);
    var p6 := p5 + Set("s3_access_key_id", access);
    SetLexed("s3_secret_access_key", secret, Terminated(t[..6]));
    LexesApp(p6, t[..6], Set("s3_secret_access_key", secret), t[6]);
  }

  // ----- the export wrapper -----

  lemma QuotedAdds(part: string, tokens: seq<Token>, x: string)
    requires AlwaysAdds(part, tokens)
    ensures AlwaysAdds(part + " '" + Escape(x) + "'", tokens + [Literal(x)])
  {
    forall st | Settleable(st) ensures Adds(part + " '" + Escape(x) + "'", tokens + [Literal(x)], st) {
      hide Lexed, Escape;
      assert Adds(part, tokens, st);
      var o := Settled(st) + tokens;
      LexedShort(" '", Lexed(part, st));
      LexedApp3(part, " '", Escape(x), st);
      LexedApp(part + " '" + Escape(x), "'", st);
      LexedApp(Escape(x), "'", Quoted("", o));
      LexedLiteral(x, o);
      assert o + [Literal(x)] == Settled(st) + (tokens + [Literal(x)]);
    }
  }

  function CopyTokens(body: seq<Token>, target: string, format: string): seq<Token> {
    [Word("COPY"), Symbol('(')] + body + [Symbol(')'), Word("TO"), Literal(target)]
    + [Symbol('('), Word("FORMAT"), Literal(format), Symbol(')')]
  }

  lemma ToAdds(target: string)
    ensures AlwaysAdds(")" + (" " + "TO") + " '" + Escape(target) + "'", [Symbol(')'), Word("TO"), Literal(target)])
  {
    CommandWords();
    hide AllWordChars, AlwaysAdds, Escape;
    SymbolAdds(")", ')');
    SpacedAdds(" ", "TO");
    AlwaysApp(")", [Symbol(')')], " " + "TO", [Word("TO")]);
    QuotedAdds(")" + (" " + "TO"), [Symbol(')')] + [Word("TO")], target);
    assert [Symbol(')')] + [Word("TO")] + [Literal(target)] == [Symbol(')'), Word("TO"), Literal(target)];
  }

  lemma SpaceAdds()
    ensures AlwaysAdds(" ", [])
  {
    forall st | Settleable(st) ensures Adds(" ", [], st) {
      LexedOpen(st);
      hide Lexed;
    }
  }

  lemma FormatAdds(format: string)
    ensures AlwaysAdds(" " + ("(" + "FORMAT") + " '" + Escape(format) + "'" + ")",
                       [Symbol('('), Word("FORMAT"), Literal(format), Symbol(')')])
  {
    CommandWords();
    hide AllWordChars, AlwaysAdds, Escape;
    SpaceAdds();
    PieceAdds("(", "FORMAT");
    AlwaysApp(" ", [], "(" + "FORMAT", [Symbol('(')] + [Word("FORMAT")]);
    var t := [] + ([Symbol('(')] + [Word("FORMAT")]);
    QuotedAdds(" " + ("(" + "FORMAT"), t, format);
    SymbolAdds(")", ')');
    AlwaysApp(" " + ("(" + "FORMAT") + " '" + Escape(format) + "'", t + [Literal(format)], ")", [Symbol(')')]);
    assert t + [Literal(format)] + [Symbol(')')] == [Symbol('('), Word("FORMAT"), Literal(format), Symbol(')')];
  }

  lemma CopyLexed(out: seq<Token>)
    ensures Lexed("COPY" + " (", Normal("", out)) == Normal("", out + [Word("COPY"), Symbol('(')])
  {
    CommandWords();
    LexedWordSpace("COPY", out);
    LexedShort(" (", Normal("COPY", out));
    LexedApp("COPY", " (", Normal("", out));
    hide Lexed, AllWordChars;
    assert out + [Word("COPY")] + [Symbol('(')] == out + [Word("COPY"), Symbol('(')];
  }

  lemma CopyAdds(body: string, tokens: seq<Token>, target: string, format: string, out: seq<Token>)
    requires Adds(body, tokens, Normal("", out + [Word("COPY"), Symbol('(')]))
    ensures Adds(CopyTo(body, target, format), CopyTokens(tokens, target, format), Normal("", out))
  {
    var st := Normal("", out);
    var t1 := [Word("COPY"), Symbol('(')];
    var a := ")" + (" " + "TO") + " '" + Escape(target) + "'";
    var b := " " + ("(" + "FORMAT") + " '" + Escape(format) + "'" + ")";
    var ta := [Symbol(')'), Word("TO"), Literal(target)];
    var tb := [Symbol('('), Word("FORMAT"), Literal(format), Symbol(')')];
    CopyLexed(out);
    ToAdds(target);
    FormatAdds(format);
    var head := "COPY" + " (";
    assert CopyTo(body, target, format) == head + body + a + b;
    CopyParts(head, t1, body, tokens, a, ta, b, tb, out);
  }

  lemma CopyParts(head: string, t1: seq<Token>, body: string, tokens: seq<Token>, a: string, ta: seq<Token>, b: string,
      tb: seq<Token>, out: seq<Token>)
    requires Lexed(head, Normal("", out)) == Normal("", out + t1) && Adds(body, tokens, Normal("", out + t1))
    requires AlwaysAdds(a, ta) && AlwaysAdds(b, tb)
    ensures Adds(head + body + a + b, t1 + tokens + ta + tb, Normal("", out))
  {
    hide Lexed;
    var st := Normal("", out);
    AddsApp(head, t1, body, tokens, st);
    assert Adds(a, ta, Lexed(head + body, st));
    AddsApp(head + body, t1 + tokens, a, ta, st);
    assert Adds(b, tb, Lexed(head + body + a, st));
    AddsApp(head + body + a, t1 + tokens + ta, b, tb, st);
  }

  // ----- Sprintf -----

  lemma SprintfHead(f: string, arg: string, spent: bool)
    requires f != "" && f[0] != '%'
    ensures Sprintf(f, arg, spent) == Prepend([f[0]], Sprintf(f[1..], arg, spent))
  {
    hide Prepend, IsModifier, INDEXED, MISSING;
  }

  lemma {:induction false} SprintfPlain(a: string, f: string, arg: string, spent: bool)
    requires '%' !in a
    ensures Sprintf(a + f, arg, spent) == Prepend(a, Sprintf(f, arg, spent))
    decreases |a|
  {
    hide Sprintf;
    var r := Sprintf(f, arg, spent);
    if a == [] {
      assert a + f == f;
      assert r.Some? ==> "" + r.value == r.value;
    } else {
      assert (a + f)[1..] == a[1..] + f;
      SprintfHead(a + f, arg, spent);
      SprintfPlain(a[1..], f, arg, spent);
      assert r.Some? ==> [a[0]] + (a[1..] + r.value) == a + r.value;
    }
  }

  predicate AllPercent(s: string) { forall i :: 0 <= i < |s| ==> s[i] == '%' }

  /** Once `%%` has lost a percent sign, the rest never makes up for it. */
  lemma {:induction false} PercentLost(lost: string, f: string, arg: string)
    requires lost != "" && AllPercent(lost) && arg != "" && arg[0] != '%'
    ensures Sprintf(f, arg, true) != Some(lost + f)
    decreases |f|
  {
    var r := Sprintf(f, arg, true);
    if r == Some(lost + f) {
      assert r.value[0] == '%';
      assert f[0] == '%' && f[1] == '%' by {
        assert (lost + f)[1] == '%';
      }
      assert "%" + (lost + "%" + f[2..]) == lost + f by {
        var l, g := "%" + (lost + "%" + f[2..]), lost + f;
        forall i | 0 <= i < |l| ensures l[i] == g[i] {
        }
      }
      assert r == Prepend("%", Sprintf(f[2..], arg, true));
      var rest := Sprintf(f[2..], arg, true).value;
      assert rest == r.value[1..] == ("%" + (lost + "%" + f[2..]))[1..] == lost + "%" + f[2..];
      PercentLost(lost + "%", f[2..], arg);
    }
  }

  /** Nor does the text behind an error marker make up for the marker. */
  lemma {:induction false} MarkerStays(f: string, arg: string)
    ensures Sprintf(f, arg, true).Some? ==> f != "!" + MISSING + Sprintf(f, arg, true).value
    decreases |f|
  {
    var marker, r := "!" + MISSING, Sprintf(f, arg, true);
    if r.Some? && f == marker + r.value {
      var g := f[|marker|..];
      assert f == marker + g && g == r.value;
      SprintfPlain(marker, g, arg, true);
      assert r.value == marker + Sprintf(g, arg, true).value;
      MarkerStays(g, arg);
    }
  }

  /** With its argument spent, Sprintf copies text without `%`, and reproduces no other text it models. */
  lemma {:induction false} SprintfSpent(f: string, arg: string)
    ensures '%' !in f ==> Sprintf(f, arg, true) == Some(f)
    ensures '%' in f && arg != "" && arg[0] != '%' ==> Sprintf(f, arg, true) != Some(f)
    decreases |f|
  {
    var r := Sprintf(f, arg, true);
    if f == [] {
    } else if f[0] != '%' {
      SprintfSpent(f[1..], arg);
      assert [f[0]] + f[1..] == f;
      assert r.Some? ==> r.value[1..] == Sprintf(f[1..], arg, true).value;
    } else if r == Some(f) && arg != "" && arg[0] != '%' {
      var rest := f[2..];
      assert f == f[..2] + rest;
      if f[1] == '%' {
        assert Sprintf(rest, arg, true).value == f[1..] == "%" + rest;
        PercentLost("%", rest, arg);
      } else {
        var v := Sprintf(rest, arg, true).value;
        assert f == "%!" + [f[1]] + MISSING + v;
        assert f[1] == '!';
        assert f[2..] == "!" + MISSING + v;
        MarkerStays(rest, arg);
      }
    }
  }

  lemma {:induction false} EscapeMembers(s: string, c: char)
    ensures c in Escape(s) <==> c in s
  {
    if s != [] {
      EscapeMembers(s[1..], c);
      assert s == [s[0]] + s[1..];
    }
  }

  lemma SprintfTemplate(head: string, body: string, rest: string)
    requires '%' !in head
    ensures Sprintf(head + ("%s" + rest), body, false) == Prepend(head, Prepend(body, Sprintf(rest, body, true)))
  {
    var f := "%s" + rest;
    SprintfPlain(head, f, body, false);
    assert f[0] == '%' && f[1] == 's' && f[2..] == rest;
    assert !(INDEXED <= f) by {
      assert INDEXED[1] == '[';
    }
  }

  lemma SameTail(head: string, body: string, a: string, b: string)
    ensures head + (body + a) == head + (body + b) <==> a == b
  {
    assert (head + (body + a))[|head|..] == body + a && (head + (body + b))[|head|..] == body + b;
    assert (body + a)[|body|..] == a && (body + b)[|body|..] == b;
  }

  /** The text the export template is meant to give. */
  predicate AsWritten(body: string, output: string, format: string) {
    Sprintf(Wrapper(output, format), body, false) == Some(CopyTo(body, Target(output), format))
  }

  /** The export template behind its leading `COPY (%s`. */
  function Tail(output: string, format: string): string {
    ")" + (" " + "TO") + " '" + Escape(Target(output))
    + ("'" + (" " + ("(" + "FORMAT") + " '" + Escape(format) + "'" + ")"))
  }

  lemma TailIsTheRest(body: string, output: string, format: string)
    ensures CopyTo(body, Target(output), format) == "COPY (" + (body + Tail(output, format))
  {
    hide Escape;
  }

  lemma AsWrittenIff(body: string, output: string, format: string)
    ensures AsWritten(body, output, format) <==>
      Sprintf(Tail(output, format), body, true) == Some(Tail(output, format))
    ensures Sprintf(Wrapper(output, format), body, false).Some? <==> Sprintf(Tail(output, format), body, true).Some?
  {
    assert Wrapper(output, format) == "COPY (" + ("%s" + Tail(output, format)) by {
      TailIsTheRest("%s", output, format);
    }
    TailIsTheRest(body, output, format);
    assert '%' !in "COPY (";
    hide Tail, CopyTo, Sprintf, Wrapper;
    SprintfTemplate("COPY (", body, Tail(output, format));
    var r := Sprintf(Tail(output, format), body, true);
    if r.Some? {
      SameTail("COPY (", body, r.value, Tail(output, format));
    }
  }

  lemma TailPercent(output: string, format: string)
    ensures '%' in Tail(output, format) <==> '%' in output || '%' in format
  {
    EscapeMembers(Target(output), '%');
    EscapeMembers(format, '%');
    hide Escape;
  }

  /**
   The export template comes out as written for every body when neither the path nor the format holds a `%`. If the
   body begins with anything but a `%`, as every structured query does, no other template in the model of Sprintf does.
   */
  lemma ExportIff(body: string, output: string, format: string)
    ensures '%' !in output && '%' !in format ==> AsWritten(body, output, format)
    ensures body != "" && body[0] != '%' && Sprintf(Wrapper(output, format), body, false).Some? ==>
      (AsWritten(body, output, format) <==> '%' !in output && '%' !in format)
  {
    hide AsWritten, Tail, Sprintf, Wrapper;
    AsWrittenIff(body, output, format);
    TailPercent(output, format);
    SprintfSpent(Tail(output, format), body);
  }

  lemma IndexExpands(a: string, b: string)
    requires '%' !in a && '%' !in b
    ensures Sprintf(a + (INDEXED + b), INDEXED, true) == Some(a + (INDEXED + b))
  {
    var f := INDEXED + b;
    assert f[0] == '%' && f[1] == '[' && INDEXED <= f && f[5..] == b;
    assert Sprintf(f, INDEXED, true) == Prepend(INDEXED, Sprintf(b, INDEXED, true));
    hide Sprintf, INDEXED;
    SprintfPlain(a, f, INDEXED, true);
    SprintfSpent(b, INDEXED);
  }

  /** The body's first character matters: this path holds a `%`, and the template still comes out as written. */
  lemma IndexReproducesItself(format: string)
    requires '%' !in format
    ensures AsWritten(INDEXED, INDEXED, format)
  {
    assert Target(INDEXED) == INDEXED && '\'' !in INDEXED;
    var a, b := ")" + (" " + "TO") + " '", "'" + (" " + ("(" + "FORMAT") + " '" + Escape(format) + "'" + ")");
    assert '%' !in a && '%' !in b by {
      EscapeMembers(format, '%');
      hide Escape;
    }
    hide Sprintf, AsWritten, INDEXED, Target, Escape;
    EscapePlain(INDEXED);
    assert Tail(INDEXED, format) == a + (INDEXED + b);
    hide Tail;
    AsWrittenIff(INDEXED, INDEXED, format);
    IndexExpands(a, b);
  }

  // ----- whole scripts -----

  lemma QueryEnds(bucket: string, f: Filter)
    ensures var q := Query(bucket, f); q != [] && q[0] == 'S' && (q[|q| - 1] == 'C' || Text.IsDigit(q[|q| - 1]))
  {
    var q := Query(bucket, f);
    assert q[0] == Source(bucket)[0] == SelectFrom()[0] == 'S';
    hide Source, Clause;
    if f.limit > 0 {
      var n := Text.Decimal(f.limit);
      assert Text.AllDigits(n) && q[|q| - 1] == n[|n| - 1];
    } else {
      assert q[|q| - 1] == OrderBy()[|OrderBy()| - 1];
    }
  }

  lemma QueryTrimmed(bucket: string, f: Filter)
    ensures Text.TrimRight(Text.TrimSpace(Query(bucket, f)), ';') == Query(bucket, f)
  {
    hide Query;
    QueryEnds(bucket, f);
  }

  lemma LexesWhole(prelude: string, statements: seq<seq<Token>>, body: string, tokens: seq<Token>)
    requires Lexes(prelude, statements) && Adds(body, tokens, Normal("", Terminated(statements)))
    ensures Lexes(prelude + body + ";\n", statements + [tokens])
    ensures Lex(prelude + body + ";\n") == Some(Terminated(statements + [tokens]))
  {
    EndStatement(body, tokens, Terminated(statements));
    LexesApp(prelude, statements, body + ";\n", tokens);
    assert prelude + (body + ";\n") == prelude + body + ";\n";
    hide Lexed, Terminated, Adds;
  }

  lemma WholeScript(body: string, tokens: seq<Token>, trimmed: string, wrap: string, endpoint: string, access: string,
      secret: string)
    requires ParseEndpoint(endpoint).Some? && Text.TrimRight(Text.TrimSpace(trimmed), ';') == trimmed
    requires if wrap == "" then body == trimmed else Sprintf(wrap, trimmed, false) == Some(body)
    requires forall out :: Adds(body, tokens, Normal("", out))
    ensures var (host, useSSL) := ParseEndpoint(endpoint).value;
            var script := Script(trimmed, wrap, endpoint, access, secret);
            script.Assembled?
                && Lex(script.text) == Some(Terminated(PreludeStatements(host, useSSL, access, secret) + [tokens]))
  {
    hide ParseEndpoint, PreludeStatements, Prelude, Lex, Terminated, Adds, Lexes, Sprintf, Text.TrimRight,
        Text.TrimSpace;
    var (host, useSSL) := ParseEndpoint(endpoint).value;
    PreludeLexes(host, useSSL, access, secret);
    LexesWhole(Prelude(host, useSSL, access, secret), PreludeStatements(host, useSSL, access, secret), body, tokens);
  }

  /** User SQL may come with or without its final semicolon, and with white space around it. */
  lemma FinalSemicolons(sql: string, wrap: string, endpoint: string, access: string, secret: string)
    requires Text.Trimmed(sql)
    ensures Script(sql + ";", wrap, endpoint, access, secret) == Script(sql, wrap, endpoint, access, secret)
    ensures Script(" " + sql + "\n", wrap, endpoint, access, secret) == Script(sql, wrap, endpoint, access, secret)
  {
    var ended, spaced := sql + ";", " " + sql + "\n";
    assert Text.TrimSpace(ended) == ended && ended[..|ended| - 1] == sql && ended[|ended| - 1] == ';';
    assert Text.TrimRight(ended, ';') == Text.TrimRight(sql, ';');
    assert Text.TrimSpace(spaced) == Text.TrimSpace(sql) by {
      var late := spaced[1..];
      assert late == sql + "\n" && Text.TrimSpace(spaced) == Text.TrimSpace(late);
      assert late[..|late| - 1] == sql;
      if sql == "" {
        assert late[1..] == "";
      } else {
        assert late[0] == sql[0] && late[|late| - 1] == '\n';
      }
    }
    hide Text.TrimSpace, Text.TrimRight, Sprintf, ParseEndpoint, Prelude;
  }

  /** What an endpoint stands for: a scheme says whether to use TLS, and without one there is none. */
  predicate StandsFor(endpoint: string, host: string, tls: bool) {
    || (tls && endpoint == "https://" + host)
    || (!tls && endpoint == "http://" + host)
    || (!tls && endpoint == host && host != "" && !("https://" <= host) && !("http://" <= host))
  }

  /** Every endpoint but the empty one stands for exactly one host and choice of TLS, the one it is parsed to. */
  lemma EndpointIff(endpoint: string, host: string, tls: bool)
    ensures ParseEndpoint(endpoint) == Some((host, tls)) <==> StandsFor(endpoint, host, tls)
  {
    assert !("https://" <= "http://" + host) by {
      assert ("http://" + host)[4] == ':' && "https://"[4] == 's';
    }
    assert ("https://" + host)[8..] == host && ("http://" + host)[7..] == host;
    if "https://" <= endpoint {
      assert endpoint == "https://" + endpoint[8..];
      assert !("http://" <= endpoint) by {
        assert endpoint[4] == "https://"[4] == 's' && "http://"[4] == ':';
      }
    } else if "http://" <= endpoint {
      assert endpoint == "http://" + endpoint[7..];
    }
  }

  /**
   For every bucket, filter, endpoint and credential the script is the same eight statements, each of the caller's
   strings standing as one literal that reads back as that string, and TLS is on exactly for an https endpoint.
   */
  lemma StructuredScript(bucket: string, f: Filter, endpoint: string, access: string, secret: string, host: string,
      tls: bool)
    requires StandsFor(endpoint, host, tls)
    ensures var statements := PreludeStatements(host, tls, access, secret) + [QueryTokens(bucket, f)];
            var script := Script(Query(bucket, f), "", endpoint, access, secret);
            |statements| == 8 && script.Assembled? && Lex(script.text) == Some(Terminated(statements))
  {
    assert |PreludeStatements(host, tls, access, secret)| == 7;
    hide *;
    EndpointIff(endpoint, host, tls);
    QueryTrimmed(bucket, f);
    forall out ensures Adds(Query(bucket, f), QueryTokens(bucket, f), Normal("", out)) {
      QueryAdds(bucket, f, out);
    }
    WholeScript(Query(bucket, f), QueryTokens(bucket, f), Query(bucket, f), "", endpoint, access, secret);
  }

  /** The same for exports, for every path and format without `%`: the query stands inside one COPY statement. */
  lemma ExportScript(bucket: string, f: Filter, output: string, format: string, endpoint: string, access: string,
      secret: string, host: string, tls: bool)
    requires StandsFor(endpoint, host, tls) && '%' !in output && '%' !in format
    ensures var copy := CopyTokens(QueryTokens(bucket, f), if output == "-" then "/dev/stdout" else output, format);
            var script := Script(Query(bucket, f), Wrapper(output, format), endpoint, access, secret);
            script.Assembled?
                && Lex(script.text) == Some(Terminated(PreludeStatements(host, tls, access, secret) + [copy]))
  {
    assert |Wrapper(output, format)| > 0;
    assert Target(output) == if output == "-" then "/dev/stdout" else output;
    hide *;
    EndpointIff(endpoint, host, tls);
    QueryTrimmed(bucket, f);
    var body, tokens := CopyTo(Query(bucket, f), Target(output), format),
        CopyTokens(QueryTokens(bucket, f), Target(output), format);
    forall out ensures Adds(body, tokens, Normal("", out)) {
      QueryAdds(bucket, f, out + [Word("COPY"), Symbol('(')]);
      CopyAdds(Query(bucket, f), QueryTokens(bucket, f), Target(output), format, out);
    }
    assert AsWritten(Query(bucket, f), output, format) by {
      ExportIff(Query(bucket, f), output, format);
    }
    AsWrittenExpands(Query(bucket, f), output, format);
    WholeScript(body, tokens, Query(bucket, f), Wrapper(output, format), endpoint, access, secret);
  }

  lemma AsWrittenExpands(body: string, output: string, format: string)
    requires AsWritten(body, output, format)
    ensures Sprintf(Wrapper(output, format), body, false) == Some(CopyTo(body, Target(output), format))
  {
  }

  /** The semicolons of `Terminated` are the only ones: no statement of either script holds another. */
  lemma StatementsWhole(bucket: string, f: Filter, host: string, useSSL: bool, access: string, secret: string,
      target: string, format: string)
    ensures var query := QueryTokens(bucket, f);
            var copy := CopyTokens(query, target, format);
            forall t :: t in PreludeStatements(host, useSSL, access, secret) + [query, copy] ==> Symbol(';') !in t
  {
    hide Text.Decimal;
    assert Symbol(';') !in QueryTokens(bucket, f);
  }
}
