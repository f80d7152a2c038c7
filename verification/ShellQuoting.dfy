/** The command line `kubectl neo4j cypher` hands to the shell in the pod, and how a POSIX shell reads it. */
module ShellQuoting {
  import opened Options

  // ---- The shell's side: sections 2.2 and 2.3 of the POSIX.1-2017 Shell Command Language ----

  datatype Token = Word(text: string) | Operator(c: char)

  datatype Mode = Plain | Escaped | Single | Double | DoubleEscaped

  /** What has been read: the quoting in force, the word in progress, and the tokens before it. */
  datatype Lexer = Lexer(mode: Mode, word: Option<string>, tokens: seq<Token>) {

    function Append(s: string): Lexer {
      this.(word := Some((if word.Some? then word.value else "") + s))
    }

    function Close(): Lexer {
      if word.Some? then Lexer(mode, None, tokens + [Word(word.value)]) else this
    }

    function Next(c: char): Lexer {
      match mode
      case Plain =>
        if c == '\\' then this.(mode := Escaped)
        else if c == '\'' then Append("").(mode := Single)
        else if c == '"' then Append("").(mode := Double)
        else if IsBlank(c) then Close()
        else if IsOperator(c) then var l := Close(); l.(tokens := l.tokens + [Operator(c)])
        else Append([c])
      case Escaped =>                       // 2.2.1: a backslash keeps the next character, or joins two lines
        if c == '\n' then this.(mode := Plain) else Append([c]).(mode := Plain)
      case Single =>                        // 2.2.2: everything up to the next single quote is literal
        if c == '\'' then this.(mode := Plain) else Append([c])
      case Double =>                        // 2.2.3, with parameter expansion left as text
        if c == '"' then this.(mode := Plain)
        else if c == '\\' then this.(mode := DoubleEscaped)
        else Append([c])
      case DoubleEscaped =>
        if c == '\n' then this.(mode := Double)
        else if c in "$`\"\\" then Append([c]).(mode := Double)
        else Append(['\\', c]).(mode := Double)
    }

    function Run(text: string): Lexer
      decreases |text|
    {
      if text == "" then this else Next(text[0]).Run(text[1..])
    }
  }

  predicate IsBlank(c: char) {
    c == ' ' || c == '\t'
  }

  predicate IsOperator(c: char) {
    c == '\n' || c == ';' || c == '&' || c == '|' || c == '<' || c == '>' || c == '(' || c == ')'
  }

  predicate IsQuote(c: char) {
    c == '\'' || c == '"' || c == '\\'
  }

  const START := Lexer(Plain, None, [])

  /** The tokens of a complete command. */
  function Tokens(text: string): seq<Token> {
    START.Run(text).Close().tokens
  }

  lemma {:induction false} RunAppend(l: Lexer, a: string, b: string)
    ensures l.Run(a + b) == l.Run(a).Run(b)
    decreases |a|
  {
    if a == "" {
      assert a + b == b;
    } else {
      assert (a + b)[1..] == a[1..] + b;
      RunAppend(l.Next(a[0]), a[1..], b);
    }
  }

  lemma RunChar(l: Lexer, c: char)
    ensures l.Run([c]) == l.Next(c)
  {
    assert [c][1..] == "";
  }

  // ---- Quoting a query ----

  /** strings.ReplaceAll(query, "'", `'\''`). */
  function EscapeQuotes(query: string): string {
    if query == "" then ""
    else (if query[0] == '\'' then "'\\''" else [query[0]]) + EscapeQuotes(query[1..])
  }

  function Quoted(query: string): string {
    "'" + EscapeQuotes(query) + "'"
  }

  lemma ReopenedQuote(l: Lexer)
    requires l.mode.Single? && l.word.Some?
    ensures l.Run("'\\''") == l.Append("'")
  {
    var s := "'\\''";
    assert s == "'" + ("\\" + ("'" + "'"));
    var l1, l2 := l.Next('\''), l.Next('\'').Next('\\');
    var l3 := l2.Next('\'');
    RunAppend(l, "'", "\\" + ("'" + "'"));
    RunAppend(l1, "\\", "'" + "'");
    RunAppend(l2, "'", "'");
    RunChar(l, '\'');
    RunChar(l1, '\\');
    RunChar(l2, '\'');
    RunChar(l3, '\'');
    assert l.word.value + "'" + "" == l.word.value + "'";
  }

  lemma {:induction false} InsideQuotes(l: Lexer, query: string)
    requires l.mode.Single? && l.word.Some?
    ensures l.Run(EscapeQuotes(query)) == l.Append(query)
    decreases |query|
  {
    if query == "" {
      assert l.word.value + query == l.word.value;
    } else {
      var head, rest := if query[0] == '\'' then "'\\''" else [query[0]], EscapeQuotes(query[1..]);
      RunAppend(l, head, rest);
      if query[0] == '\'' { ReopenedQuote(l); } else { RunChar(l, query[0]); }
      var l' := l.Append([query[0]]);
      assert l.Run(head) == l';
      InsideQuotes(l', query[1..]);
      assert l.word.value + query == l.word.value + [query[0]] + query[1..];
    }
  }

  /** Whatever the query holds, its quoted form adds exactly the query to the word in progress and leaves no quoting open. */
  lemma QuotedReadsBack(l: Lexer, query: string)
    requires l.mode.Plain?
    ensures l.Run(Quoted(query)) == l.Append(query)
  {
    var inside := l.Append("").(mode := Single);
    assert Quoted(query) == "'" + (EscapeQuotes(query) + "'");
    RunAppend(l, "'", EscapeQuotes(query) + "'");
    RunChar(l, '\'');
    RunAppend(inside, EscapeQuotes(query), "'");
    InsideQuotes(inside, query);
    RunChar(inside.Append(query), '\'');
    assert inside.word.value + query == (if l.word.Some? then l.word.value else "") + query;
  }

  // ---- Other words ----

  /** No quote, blank or operator, so a word of its own; expansion of what is in it is not modelled. */
  predicate Ordinary(s: string) {
    s != "" && forall i :: 0 <= i < |s| ==> !IsQuote(s[i]) && !IsBlank(s[i]) && !IsOperator(s[i])
  }

  predicate Unquoting(s: string) {
    forall i :: 0 <= i < |s| ==> !IsQuote(s[i])
  }

  lemma {:induction false} OrdinaryRun(l: Lexer, s: string)
    requires l.mode.Plain? && Ordinary(s)
    ensures l.Run(s) == l.Append(s)
    decreases |s|
  {
    if |s| == 1 {
      RunChar(l, s[0]);
      assert s == [s[0]];
    } else {
      OrdinaryRun(l.Append([s[0]]), s[1..]);
      assert l.Append([s[0]]).Append(s[1..]) == l.Append(s) by {
        assert (if l.word.Some? then l.word.value else "") + [s[0]] + s[1..] == (if l.word.Some? then l.word.value else "") + s;
      }
    }
  }

  lemma {:induction false} DoubleRun(l: Lexer, s: string)
    requires l.mode.Double? && l.word.Some? && Unquoting(s)
    ensures l.Run(s) == l.Append(s)
    decreases |s|
  {
    if s == "" {
      assert l.word.value + s == l.word.value;
    } else {
      DoubleRun(l.Append([s[0]]), s[1..]);
      assert l.word.value + s == l.word.value + [s[0]] + s[1..];
    }
  }

  function DoubleQuoted(s: string): string {
    "\"" + s + "\""
  }

  lemma DoubleQuotedRun(l: Lexer, s: string)
    requires l.mode.Plain? && Unquoting(s)
    ensures l.Run(DoubleQuoted(s)) == l.Append(s)
  {
    var inside := l.Append("").(mode := Double);
    assert DoubleQuoted(s) == "\"" + (s + "\"");
    RunAppend(l, "\"", s + "\"");
    RunChar(l, '"');
    RunAppend(inside, s, "\"");
    DoubleRun(inside, s);
    RunChar(inside.Append(s), '"');
    assert inside.word.value + s == (if l.word.Some? then l.word.value else "") + s;
  }

  /** A word by the way it is written: unquoted, in double or single quotes, or two of these with nothing between them. */
  datatype Spelling = Bare(text: string) | InDouble(text: string) | InSingle(text: string) | Glued(a: Spelling, b: Spelling) {

    function Source(): string {
      match this
      case Bare(text) => text
      case InDouble(text) => DoubleQuoted(text)
      case InSingle(text) => Quoted(text)
      case Glued(a, b) => a.Source() + b.Source()
    }

    /** The word the shell makes of it. */
    function Value(): string {
      match this
      case Glued(a, b) => a.Value() + b.Value()
      case _ => text
    }

    /** Only the single-quoted form may hold anything. */
    predicate Valid() {
      match this
      case Bare(text) => Ordinary(text)
      case InDouble(text) => Unquoting(text)
      case InSingle(_) => true
      case Glued(a, b) => a.Valid() && b.Valid()
    }
  }

  lemma AppendTwice(l: Lexer, a: string, b: string)
    ensures l.Append(a).Append(b) == l.Append(a + b)
  {
    var word := if l.word.Some? then l.word.value else "";
    assert word + a + b == word + (a + b);
  }

  lemma {:induction false} SpellingRun(l: Lexer, s: Spelling)
    requires l.mode.Plain? && s.Valid()
    ensures l.Run(s.Source()) == l.Append(s.Value())
    decreases s
  {
    match s {
      case Bare(text) => OrdinaryRun(l, text);
      case InDouble(text) => DoubleQuotedRun(l, text);
      case InSingle(text) => QuotedReadsBack(l, text);
      case Glued(a, b) =>
        RunAppend(l, a.Source(), b.Source());
        SpellingRun(l, a);
        SpellingRun(l.Append(a.Value()), b);
        AppendTwice(l, a.Value(), b.Value());
    }
  }

  /** One token of a command as it is written, with or without a blank behind it. */
  datatype Piece = Wd(word: Spelling, spaced: bool) | Op(c: char, spaced: bool) {

    function Source(): string {
      (if Wd? then word.Source() else [c]) + if spaced then " " else ""
    }

    function Token(): Token {
      if Wd? then Word(word.Value()) else Operator(c)
    }

    predicate Valid() {
      if Wd? then word.Valid() else IsOperator(c)
    }
  }

  function Source(pieces: seq<Piece>): string {
    if pieces == [] then "" else pieces[0].Source() + Source(pieces[1..])
  }

  function Written(pieces: seq<Piece>): seq<Token> {
    seq(|pieces|, i requires 0 <= i < |pieces| => pieces[i].Token())
  }

  /** Every piece is valid, and no two words touch. */
  predicate Valid(pieces: seq<Piece>) {
    && (forall i :: 0 <= i < |pieces| ==> pieces[i].Valid())
    && (forall i :: 0 < i < |pieces| && pieces[i].Wd? ==> pieces[i - 1].Op? || pieces[i - 1].spaced)
  }

  lemma PieceRun(l: Lexer, p: Piece)
    requires l.mode.Plain? && p.Valid() && (l.word.None? || p.Op?)
    ensures var t := l.Run(p.Source());
      && t.mode.Plain? && t.Close().tokens == l.Close().tokens + [p.Token()]
      && (t.word.Some? ==> p.Wd? && !p.spaced)
  {
    var core, tail := if p.Wd? then p.word.Source() else [p.c], if p.spaced then " " else "";
    RunAppend(l, core, tail);
    if p.Wd? {
      SpellingRun(l, p.word);
      assert "" + p.word.Value() == p.word.Value();
    } else {
      RunChar(l, p.c);
    }
    RunChar(l.Run(core), ' ');
  }

  /** A command so written is read as its tokens. */
  lemma {:induction false} PiecesRun(l: Lexer, pieces: seq<Piece>)
    requires l.mode.Plain? && Valid(pieces) && (l.word.Some? && pieces != [] ==> pieces[0].Op?)
    ensures l.Run(Source(pieces)).Close().tokens == l.Close().tokens + Written(pieces)
    decreases |pieces|
  {
    if pieces == [] {
      assert l.Close().tokens + Written(pieces) == l.Close().tokens;
    } else {
      var p, rest := pieces[0], pieces[1..];
      RunAppend(l, p.Source(), Source(rest));
      PieceRun(l, p);
      assert rest != [] && rest[0].Wd? ==> pieces[1].Wd?;
      PiecesRun(l.Run(p.Source()), rest);
      assert Written(pieces) == [p.Token()] + Written(rest);
    }
  }

  lemma TokensAre(pieces: seq<Piece>)
    requires Valid(pieces)
    ensures Tokens(Source(pieces)) == Written(pieces)
  {
    PiecesRun(START, pieces);
    assert [] + Written(pieces) == Written(pieces);
  }

  // ---- The command ----

  /** A word that is written as it is, and a blank. */
  function W(text: string): Piece {
    Wd(Bare(text), true)
  }

  /** cypher-shell -a <address> -u "$DB_USERNAME" -p "$DB_PASSWORD", and --non-interactive '<query>' for a single query. */
  function Invocation(address: string, query: string): seq<Piece> {
    [W("cypher-shell"), W("-a"), W(address), W("-u"), Wd(InDouble("$DB_USERNAME"), true), W("-p")]
    + if query == "" then [Wd(InDouble("$DB_PASSWORD"), false)]
      else [Wd(InDouble("$DB_PASSWORD"), true), W("--non-interactive"), Wd(InSingle(query), false)]
  }

  /** TS="$(mktemp -d)/neo4j-ca.p12"; CA=/ssl/ca.crt; [ -s "$CA" ] || CA=/ssl/tls.crt; */
  function FindCA(): seq<Piece> {
    [Wd(Glued(Bare("TS="), InDouble("$(mktemp -d)/neo4j-ca.p12")), false), Op(';', true),
     Wd(Bare("CA=/ssl/ca.crt"), false), Op(';', true),
     W("["), W("-s"), Wd(InDouble("$CA"), true), W("]"), Op('|', false), Op('|', true),
     Wd(Bare("CA=/ssl/tls.crt"), false), Op(';', true)]
  }

  /** keytool -importcert -noprompt -alias neo4j-ca -file "$CA" */
  function ImportCA(): seq<Piece> {
    [W("keytool"), W("-importcert"), W("-noprompt"), W("-alias"), W("neo4j-ca"), W("-file"), Wd(InDouble("$CA"), true)]
  }

  /** -keystore "$TS" -storetype PKCS12 -storepass changeit >/dev/null 2>&1; */
  function IntoStore(): seq<Piece> {
    [W("-keystore"), Wd(InDouble("$TS"), true), W("-storetype"), W("PKCS12"), W("-storepass"), W("changeit"),
     Op('>', false), W("/dev/null"), Wd(Bare("2"), false), Op('>', false), Op('&', false), Wd(Bare("1"), false), Op(';', true)]
  }

  const STORE := "-Djavax.net.ssl.trustStore=$TS "
  const STORE_PASSWORD := "-Djavax.net.ssl.trustStorePassword=changeit "
  const STORE_TYPE := "-Djavax.net.ssl.trustStoreType=PKCS12"

  /** JAVA_OPTS="-Djavax.net.ssl.trustStore=$TS ..." */
  function JavaOptions(): seq<Piece> {
    [Wd(Glued(Bare("JAVA_OPTS="), InDouble(STORE + STORE_PASSWORD + STORE_TYPE)), true)]
  }

  /** ; rc=$?; rm -rf "$(dirname "$TS")"; exit $rc */
  function CleanUp(): seq<Piece> {
    [Op(';', true), Wd(Bare("rc=$?"), false), Op(';', true),
     W("rm"), W("-rf"), Wd(Glued(InDouble("$(dirname "), Glued(Bare("$TS"), InDouble(")"))), false), Op(';', true),
     W("exit"), Wd(Bare("$rc"), false)]
  }

  /** With TLS, withTrustedCA builds a trust store from the pod's CA before the command and removes it afterwards. */
  function Command(address: string, query: string, tls: bool): seq<Piece> {
    if tls then FindCA() + ImportCA() + IntoStore() + JavaOptions() + Invocation(address, query) + CleanUp()
    else Invocation(address, query)
  }

  function CypherShellArgs(address: string, query: string, tls: bool): string {
    Source(Command(address, query, tls))
  }

  // ---- Its words ----

  lemma InvocationWords()
    ensures Ordinary("cypher-shell") && Ordinary("-a") && Ordinary("-u") && Ordinary("-p") && Ordinary("--non-interactive")
    ensures Unquoting("$DB_USERNAME") && Unquoting("$DB_PASSWORD")
  {
  }

  lemma InvocationValid(address: string, query: string)
    requires Ordinary(address)
    ensures Valid(Invocation(address, query))
  {
    InvocationWords();
  }

  lemma FindWords()
    ensures Ordinary("TS=") && Ordinary("[") && Ordinary("-s") && Ordinary("]") && Unquoting("$CA")
    ensures Ordinary("CA=/ssl/ca.crt") && Ordinary("CA=/ssl/tls.crt") && Unquoting("$(mktemp -d)/neo4j-ca.p12")
  {
  }

  lemma FindValid()
    ensures Valid(FindCA())
  {
    FindWords();
  }

  lemma ImportWords()
    ensures Ordinary("keytool") && Ordinary("-importcert") && Ordinary("-noprompt") && Ordinary("-alias")
    ensures Ordinary("neo4j-ca") && Ordinary("-file") && Unquoting("$CA")
  {
  }

  lemma ImportValid()
    ensures Valid(ImportCA())
  {
    ImportWords();
  }

  lemma StoreWords()
    ensures Ordinary("-keystore") && Ordinary("-storetype") && Ordinary("PKCS12") && Ordinary("-storepass")
    ensures Ordinary("changeit") && Ordinary("/dev/null") && Ordinary("2") && Ordinary("1") && Unquoting("$TS")
  {
  }

  lemma StoreValid()
    ensures Valid(IntoStore())
  {
    StoreWords();
  }

  lemma OptionWords()
    ensures Ordinary("JAVA_OPTS=") && Unquoting("-Djavax.net.ssl.trustStore=$TS ")
    ensures Unquoting("-Djavax.net.ssl.trustStoreType=PKCS12")
  {
  }

  lemma PasswordWord()
    ensures Unquoting("-Djavax.net.ssl.trustStorePassword=changeit ")
  {
  }

  lemma UnquotingAppend(a: string, b: string, c: string)
    requires Unquoting(a) && Unquoting(b) && Unquoting(c)
    ensures Unquoting(a + b + c)
  {
  }

  lemma OptionsValid()
    ensures Valid(JavaOptions())
  {
    OptionWords();
    PasswordWord();
    UnquotingAppend(STORE, STORE_PASSWORD, STORE_TYPE);
    assert Bare("JAVA_OPTS=").Valid() && InDouble(STORE + STORE_PASSWORD + STORE_TYPE).Valid();
    assert JavaOptions()[0].Valid();
  }

  lemma CleanUpWords()
    ensures Ordinary("rc=$?") && Ordinary("rm") && Ordinary("-rf") && Ordinary("$TS") && Ordinary("exit") && Ordinary("$rc")
    ensures Unquoting("$(dirname ") && Unquoting(")")
  {
  }

  lemma CleanUpValid()
    ensures Valid(CleanUp())
  {
    CleanUpWords();
  }

  lemma ValidAppend(a: seq<Piece>, b: seq<Piece>)
    requires Valid(a) && Valid(b) && a != [] && b != [] && (b[0].Wd? ==> a[|a| - 1].Op? || a[|a| - 1].spaced)
    ensures Valid(a + b)
  {
    var all := a + b;
    forall i | 0 < i < |all| && all[i].Wd? ensures all[i - 1].Op? || all[i - 1].spaced {
      if i > |a| {
        assert all[i] == b[i - |a|] && all[i - 1] == b[i - |a| - 1];
      }
    }
  }

  lemma WrittenAppend(a: seq<Piece>, b: seq<Piece>)
    ensures Written(a + b) == Written(a) + Written(b)
  {
  }

  // ---- What the shell makes of it ----

  lemma InvocationWritten(address: string, query: string)
    ensures Written(Invocation(address, query)) ==
      if query == "" then
        [Word("cypher-shell"), Word("-a"), Word(address), Word("-u"), Word("$DB_USERNAME"), Word("-p"), Word("$DB_PASSWORD")]
      else
        [Word("cypher-shell"), Word("-a"), Word(address), Word("-u"), Word("$DB_USERNAME"),
         Word("-p"), Word("$DB_PASSWORD"), Word("--non-interactive"), Word(query)]
  {
  }

  /** For every query, the shell runs cypher-shell with exactly these arguments, the query being one of them. */
  lemma OneShotTokens(address: string, query: string)
    requires Ordinary(address) && query != ""
    ensures Tokens(CypherShellArgs(address, query, false))
      == [Word("cypher-shell"), Word("-a"), Word(address), Word("-u"), Word("$DB_USERNAME"),
          Word("-p"), Word("$DB_PASSWORD"), Word("--non-interactive"), Word(query)]
  {
    InvocationValid(address, query);
    TokensAre(Invocation(address, query));
    InvocationWritten(address, query);
  }

  /** Without a query the session is interactive. */
  lemma InteractiveTokens(address: string)
    requires Ordinary(address)
    ensures Tokens(CypherShellArgs(address, "", false))
      == [Word("cypher-shell"), Word("-a"), Word(address), Word("-u"), Word("$DB_USERNAME"), Word("-p"), Word("$DB_PASSWORD")]
  {
    InvocationValid(address, "");
    TokensAre(Invocation(address, ""));
    InvocationWritten(address, "");
  }

  lemma FindWritten()
    ensures Written(FindCA())
      == [Word("TS=" + "$(mktemp -d)/neo4j-ca.p12"), Operator(';'), Word("CA=/ssl/ca.crt"), Operator(';'),
          Word("["), Word("-s"), Word("$CA"), Word("]"), Operator('|'), Operator('|'), Word("CA=/ssl/tls.crt"), Operator(';')]
  {
  }

  lemma ImportWritten()
    ensures Written(ImportCA())
      == [Word("keytool"), Word("-importcert"), Word("-noprompt"), Word("-alias"), Word("neo4j-ca"), Word("-file"), Word("$CA")]
  {
  }

  lemma StoreWritten()
    ensures Written(IntoStore())
      == [Word("-keystore"), Word("$TS"), Word("-storetype"), Word("PKCS12"), Word("-storepass"), Word("changeit"),
          Operator('>'), Word("/dev/null"), Word("2"), Operator('>'), Operator('&'), Word("1"), Operator(';')]
  {
  }

  lemma OptionsWritten()
    ensures Written(JavaOptions())
      == [Word("JAVA_OPTS=" + ("-Djavax.net.ssl.trustStore=$TS " + "-Djavax.net.ssl.trustStorePassword=changeit "
               + "-Djavax.net.ssl.trustStoreType=PKCS12"))]
  {
    assert JavaOptions()[0].word.Value() == "JAVA_OPTS=" + (STORE + STORE_PASSWORD + STORE_TYPE);
  }

  lemma CleanUpWritten()
    ensures Written(CleanUp())
      == [Operator(';'), Word("rc=$?"), Operator(';'), Word("rm"), Word("-rf"), Word("$(dirname " + ("$TS" + ")")),
          Operator(';'), Word("exit"), Word("$rc")]
  {
    var dir := Glued(InDouble("$(dirname "), Glued(Bare("$TS"), InDouble(")")));
    assert dir.Value() == "$(dirname " + Glued(Bare("$TS"), InDouble(")")).Value();
  }

  lemma HeadValid()
    ensures var head := FindCA() + ImportCA() + IntoStore() + JavaOptions();
      Valid(head) && head != [] && head[|head| - 1] == JavaOptions()[0]
  {
    FindValid();
    ImportValid();
    StoreValid();
    OptionsValid();
    ValidAppend(FindCA(), ImportCA());
    ValidAppend(FindCA() + ImportCA(), IntoStore());
    ValidAppend(FindCA() + ImportCA() + IntoStore(), JavaOptions());
  }

  lemma CommandValid(address: string, query: string)
    requires Ordinary(address)
    ensures Valid(Command(address, query, true))
  {
    HeadValid();
    InvocationValid(address, query);
    CleanUpValid();
    var head := FindCA() + ImportCA() + IntoStore() + JavaOptions();
    ValidAppend(head, Invocation(address, query));
    ValidAppend(head + Invocation(address, query), CleanUp());
  }

  lemma WrittenOfSix(a: seq<Piece>, b: seq<Piece>, c: seq<Piece>, d: seq<Piece>, e: seq<Piece>, f: seq<Piece>)
    ensures Written(a + b + c + d + e + f) == Written(a) + Written(b) + Written(c) + Written(d) + Written(e) + Written(f)
  {
    WrittenAppend(a, b);
    WrittenAppend(a + b, c);
    WrittenAppend(a + b + c, d);
    WrittenAppend(a + b + c + d, e);
    WrittenAppend(a + b + c + d + e, f);
  }

  /**
    With TLS the query is one word again, and the text around it is read the
    same for every query: nothing in a query can reach the wrapper.
   */
  lemma WrappedTokens(address: string, query: string)
    requires Ordinary(address)
    ensures Tokens(CypherShellArgs(address, query, true))
      == [Word("TS=" + "$(mktemp -d)/neo4j-ca.p12"), Operator(';'), Word("CA=/ssl/ca.crt"), Operator(';'),
          Word("["), Word("-s"), Word("$CA"), Word("]"), Operator('|'), Operator('|'), Word("CA=/ssl/tls.crt"), Operator(';')]
       + [Word("keytool"), Word("-importcert"), Word("-noprompt"), Word("-alias"), Word("neo4j-ca"), Word("-file"), Word("$CA")]
       + [Word("-keystore"), Word("$TS"), Word("-storetype"), Word("PKCS12"), Word("-storepass"), Word("changeit"),
          Operator('>'), Word("/dev/null"), Word("2"), Operator('>'), Operator('&'), Word("1"), Operator(';')]
       + [Word("JAVA_OPTS=" + ("-Djavax.net.ssl.trustStore=$TS " + "-Djavax.net.ssl.trustStorePassword=changeit "
               + "-Djavax.net.ssl.trustStoreType=PKCS12"))]
       + Tokens(CypherShellArgs(address, query, false))
       + [Operator(';'), Word("rc=$?"), Operator(';'), Word("rm"), Word("-rf"), Word("$(dirname " + ("$TS" + ")")),
          Operator(';'), Word("exit"), Word("$rc")]
  {
    CommandValid(address, query);
    TokensAre(Command(address, query, true));
    InvocationValid(address, query);
    TokensAre(Invocation(address, query));
    WrittenOfSix(FindCA(), ImportCA(), IntoStore(), JavaOptions(), Invocation(address, query), CleanUp());
    FindWritten();
    ImportWritten();
    StoreWritten();
    OptionsWritten();
    CleanUpWritten();
  }
}
