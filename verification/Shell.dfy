/** Shell quoting for the remote mosh-server command, undone by the shell's own token rules. */
module Shell {
  import opened Bytes

  /* The lexer: token recognition with single quotes and double quotes, sections 2.2.2, 2.2.3 and 2.3 of the
     POSIX.1-2017 Shell Command Language. Operators are reported one character at a time. A command that needs
     an expansion, an escape or a comment, that leaves a quotation open, or that holds a NUL yields None. */

  datatype Token = Word(text: string) | Operator(op: char)

  datatype Mode = Bare | Single | Double

  // `word` is the word under way, None between words.
  datatype Lexer = Lexer(mode: Mode, word: Option<string>, done: seq<Token>) | Refused

  predicate IsOperator(c: char) {
    c == ';' || c == '&' || c == '|' || c == '<' || c == '>' || c == '(' || c == ')' || c == '\n'
  }

  predicate IsBlank(c: char) { c == ' ' || c == '\t' }

  predicate Expands(c: char) { c == '$' || c == '`' || c == '\\' }

  function Text(word: Option<string>): string { if word.Some? then word.value else "" }

  function Ended(l: Lexer): seq<Token>
    requires l.Lexer?
  {
    if l.word.Some? then l.done + [Word(l.word.value)] else l.done
  }

  function Step(l: Lexer, c: char): Lexer {
    if l.Refused? || c == '\0' then Refused else
    match l.mode
    case Single => if c == '\'' then l.(mode := Bare) else l.(word := Some(Text(l.word) + [c]))
    case Double =>
      if c == '"' then l.(mode := Bare) else if Expands(c) then Refused else l.(word := Some(Text(l.word) + [c]))
    case Bare =>
      if IsBlank(c) then Lexer(Bare, None, Ended(l))
      else if IsOperator(c) then Lexer(Bare, None, Ended(l) + [Operator(c)])
      else if c == '\'' then l.(mode := Single, word := Some(Text(l.word)))
      else if c == '"' then l.(mode := Double, word := Some(Text(l.word)))
      else if Expands(c) || (c == '#' && l.word.None?) then Refused
      else l.(word := Some(Text(l.word) + [c]))
  }

  function Run(l: Lexer, s: string): Lexer
    decreases |s|
  {
    if s == "" then l else Run(Step(l, s[0]), s[1..])
  }

  const START: Lexer := Lexer(Bare, None, [])

  function Lex(s: string): Option<seq<Token>> {
    var l := Run(START, s);
    if l.Refused? || !l.mode.Bare? then None else Some(Ended(l))
  }

  lemma {:induction false} RunAppend(l: Lexer, a: string, b: string)
    ensures Run(l, a + b) == Run(Run(l, a), b)
    decreases |a|
  {
    if a == "" {
      assert a + b == b;
    } else {
      assert (a + b)[1..] == a[1..] + b;
      RunAppend(Step(l, a[0]), a[1..], b);
    }
  }

  lemma {:induction false} RunRefused(s: string)
    ensures Run(Refused, s) == Refused
    decreases |s|
  {
    if s != "" { RunRefused(s[1..]); }
  }

  /* Quoting */

  function Escape(s: string): string {
    if s == "" then "" else (if s[0] == '\'' then "'\"'\"'" else [s[0]]) + Escape(s[1..])
  }

  function ShellWord(s: string): string { "'" + Escape(s) + "'" }

  predicate NulFree(s: string) { forall i :: 0 <= i < |s| ==> s[i] != '\0' }

  lemma {:induction false} EscapedQuote(l: Lexer)
    requires l.Lexer? && l.mode.Single?
    ensures Run(l, "'\"'\"'") == l.(word := Some(Text(l.word) + "'"))
  {
    var a := Step(l, '\'');
    var b := Step(a, '"');
    var c := Step(b, '\'');
    var d := Step(c, '"');
    assert Step(d, '\'') == l.(word := Some(Text(l.word) + "'"));
    assert Run(d, "'") == Step(d, '\'') by { assert "'"[1..] == ""; }
    assert Run(c, "\"'") == Run(d, "'") by { assert "\"'"[1..] == "'"; }
    assert Run(b, "'\"'") == Run(c, "\"'") by { assert "'\"'"[1..] == "\"'"; }
    assert Run(a, "\"'\"'") == Run(b, "'\"'") by { assert "\"'\"'"[1..] == "'\"'"; }
    assert "'\"'\"'"[1..] == "\"'\"'";
  }

  // Inside single quotes the escaped text reads back as the text; with a NUL it is refused.
  lemma {:induction false} EscapeReads(l: Lexer, s: string)
    requires l.Lexer? && l.mode.Single? && l.word.Some?
    ensures Run(l, Escape(s)) == if NulFree(s) then l.(word := Some(l.word.value + s)) else Refused
    decreases |s|
  {
    if s == "" {
      assert l.word.value + s == l.word.value;
    } else {
      var head := if s[0] == '\'' then "'\"'\"'" else [s[0]];
      RunAppend(l, head, Escape(s[1..]));
      if s[0] == '\'' {
        EscapedQuote(l);
      } else {
        assert [s[0]][1..] == "";
        assert Run(l, [s[0]]) == Step(l, s[0]);
      }
      assert NulFree(s) <==> s[0] != '\0' && NulFree(s[1..]) by {
        assert forall i :: 0 <= i < |s| - 1 ==> s[1..][i] == s[i + 1];
        if s[0] != '\0' && NulFree(s[1..]) {
          forall i | 0 <= i < |s| ensures s[i] != '\0' { if i > 0 { assert s[1..][i - 1] == s[i]; } }
        }
      }
      if s[0] == '\0' {
        RunRefused(Escape(s[1..]));
      } else {
        var next := l.(word := Some(l.word.value + [s[0]]));
        assert Run(l, head) == next;
        EscapeReads(next, s[1..]);
        assert l.word.value + [s[0]] + s[1..] == l.word.value + s;
      }
    }
  }

  lemma {:induction false} One(l: Lexer, c: char)
    ensures Run(l, [c]) == Step(l, c)
  {
    assert [c][1..] == "";
  }

  // A quoted word continues the word under way by exactly its text.
  lemma {:induction false} ShellWordReads(l: Lexer, s: string)
    requires l.Lexer? && l.mode.Bare?
    ensures Run(l, ShellWord(s)) == if NulFree(s) then l.(word := Some(Text(l.word) + s)) else Refused
  {
    var q := Step(l, '\'');
    RunAppend(l, "'" + Escape(s), "'");
    RunAppend(l, "'", Escape(s));
    One(l, '\'');
    EscapeReads(q, s);
    One(Run(q, Escape(s)), '\'');
  }

  /* Lists of words */

  function Quoted(words: seq<string>): seq<string> {
    if words == [] then [] else Quoted(words[..|words| - 1]) + [ShellWord(words[|words| - 1])]
  }

  // strings.Join with one space.
  function Join(words: seq<string>): string {
    if words == [] then "" else if |words| == 1 then words[0]
    else Join(words[..|words| - 1]) + " " + words[|words| - 1]
  }

  function Words(words: seq<string>): (ts: seq<Token>)
    ensures |ts| == |words|
  {
    if words == [] then [] else Words(words[..|words| - 1]) + [Word(words[|words| - 1])]
  }

  predicate AllNulFree(words: seq<string>) { forall i :: 0 <= i < |words| ==> NulFree(words[i]) }

  // Between words, a quoted word starts a new one.
  lemma {:induction false} NewWord(l: Lexer, s: string)
    requires l.Lexer? && l.mode.Bare? && l.word.None?
    ensures Run(l, ShellWord(s)) == if NulFree(s) then l.(word := Some(s)) else Refused
  {
    ShellWordReads(l, s);
    assert "" + s == s;
  }

  // A blank ends the word under way.
  lemma {:induction false} NextWord(l: Lexer, a: string, s: string)
    requires Run(l, a).Lexer? && Run(l, a).mode.Bare? && Run(l, a).word.Some?
    ensures Run(l, a + " " + ShellWord(s)) ==
            if NulFree(s) then Lexer(Bare, Some(s), Run(l, a).done + [Word(Run(l, a).word.value)]) else Refused
  {
    RunAppend(l, a + " ", ShellWord(s));
    RunAppend(l, a, " ");
    One(Run(l, a), ' ');
    NewWord(Step(Run(l, a), ' '), s);
  }

  lemma {:induction false} LastSplits(words: seq<string>)
    requires words != []
    ensures AllNulFree(words) <==> AllNulFree(words[..|words| - 1]) && NulFree(words[|words| - 1])
    ensures |words| > 1 ==>
              Join(Quoted(words)) == Join(Quoted(words[..|words| - 1])) + " " + ShellWord(words[|words| - 1])
    ensures |words| == 1 ==> Join(Quoted(words)) == ShellWord(words[0])
  {
    var n := |words| - 1;
    QuotedSize(words);
    assert Quoted(words)[..n] == Quoted(words[..n]);
  }

  lemma {:induction false} StaysRefused(l: Lexer, a: string, b: string)
    requires Run(l, a) == Refused
    ensures Run(l, a + b) == Refused
  {
    RunAppend(l, a, b);
    RunRefused(b);
  }

  lemma {:induction false} MoreReads(l: Lexer, joined: string, words: seq<string>, w: string)
    requires l.Lexer? && words != []
    requires Run(l, joined) == Lexer(Bare, Some(words[|words| - 1]), l.done + Words(words[..|words| - 1]))
    ensures Run(l, joined + " " + ShellWord(w))
            == if NulFree(w) then Lexer(Bare, Some(w), l.done + Words(words)) else Refused
  {
    var n := |words| - 1;
    NextWord(l, joined, w);
    assert l.done + Words(words[..n]) + [Word(words[n])] == l.done + Words(words);
  }

  // The words' tokens, the last of them still under way.
  ghost function Reading(l: Lexer, words: seq<string>): Lexer
    requires l.Lexer? && words != []
  {
    if AllNulFree(words) then Lexer(Bare, Some(words[|words| - 1]), l.done + Words(words[..|words| - 1])) else Refused
  }

  lemma {:induction false} JoinReads(l: Lexer, words: seq<string>)
    requires l.Lexer? && l.mode.Bare? && l.word.None? && words != []
    ensures Run(l, Join(Quoted(words))) == Reading(l, words)
    decreases |words|
  {
    var n := |words| - 1;
    var rest, w := words[..n], words[n];
    LastSplits(words);
    if n == 0 {
      NewWord(l, w);
      assert l.done + Words(rest) == l.done;
    } else {
      var joined := Join(Quoted(rest));
      JoinReads(l, rest);
      if AllNulFree(rest) {
        MoreReads(l, joined, rest, w);
      } else {
        StaysRefused(l, joined, " ");
        StaysRefused(l, joined + " ", ShellWord(w));
      }
    }
  }

  lemma {:induction false} QuotedSize(words: seq<string>)
    ensures |Quoted(words)| == |words|
    decreases |words|
  {
    if words != [] { QuotedSize(words[..|words| - 1]); }
  }

  // Any list of words survives quoting exactly when none holds a NUL, the one character no argument can carry.
  lemma {:induction false} QuotingRoundTrip(words: seq<string>)
    ensures Lex(Join(Quoted(words))) == if AllNulFree(words) then Some(Words(words)) else None
    ensures Lex(Join(Quoted(words))) == Some(Words(words)) <==> AllNulFree(words)
  {
    if words != [] {
      JoinReads(START, words);
      assert [] + Words(words[..|words| - 1]) == Words(words[..|words| - 1]);
    }
  }

  /* The mosh-server command */

  predicate Ordinary(c: char) {
    !IsBlank(c) && !IsOperator(c) && !Expands(c) && c != '\'' && c != '"' && c != '#' && c != '\0'
  }

  predicate Plain(w: string) { w != "" && forall i :: 0 <= i < |w| ==> Ordinary(w[i]) }

  // Unquoted words, a blank after each.
  function Spoken(words: seq<string>): string {
    if words == [] then "" else Spoken(words[..|words| - 1]) + words[|words| - 1] + " "
  }

  lemma {:induction false} PlainReads(l: Lexer, w: string)
    requires l.Lexer? && l.mode.Bare? && (forall i :: 0 <= i < |w| ==> Ordinary(w[i]))
    ensures w != "" ==> Run(l, w) == l.(word := Some(Text(l.word) + w))
    ensures w == "" ==> Run(l, w) == l
    decreases |w|
  {
    if w != "" {
      var m := l.(word := Some(Text(l.word) + [w[0]]));
      assert Step(l, w[0]) == m;
      PlainReads(m, w[1..]);
      assert Text(l.word) + [w[0]] + w[1..] == Text(l.word) + w;
      if w[1..] == "" { assert w == [w[0]]; }
    }
  }

  // A plain word followed by one character.
  lemma {:induction false} PlainThen(l: Lexer, w: string, c: char)
    requires l.Lexer? && l.mode.Bare? && l.word.None? && Plain(w)
    ensures Run(l, w + [c]) == Step(l.(word := Some(w)), c)
  {
    RunAppend(l, w, [c]);
    PlainReads(l, w);
    assert "" + w == w;
    One(l.(word := Some(w)), c);
  }

  lemma {:induction false} SpokenReads(l: Lexer, words: seq<string>)
    requires l.Lexer? && l.mode.Bare? && l.word.None? && (forall i :: 0 <= i < |words| ==> Plain(words[i]))
    ensures Run(l, Spoken(words)) == Lexer(Bare, None, l.done + Words(words))
    decreases |words|
  {
    if words == [] {
      assert l.done + [] == l.done;
    } else {
      var n := |words| - 1;
      var rest, w := words[..n], words[n];
      SpokenReads(l, rest);
      var m := Lexer(Bare, None, l.done + Words(rest));
      RunAppend(l, Spoken(rest), w + " ");
      assert Spoken(rest) + (w + " ") == Spoken(words);
      PlainThen(m, w, ' ');
      assert l.done + Words(rest) + [Word(w)] == l.done + Words(words);
    }
  }

  // strconv.Itoa.
  function Decimal(n: int): string
    decreases if n < 0 then 1 - n else n
  {
    if n < 0 then "-" + Decimal(-n)
    else if n < 10 then [('0' as int + n) as char]
    else Decimal(n / 10) + [('0' as int + n % 10) as char]
  }

  // The number a string of digits stands for, with a minus sign in front or without.
  function Number(s: string): int {
    if s == "" then 0 else Number(s[..|s| - 1]) * 10 + (s[|s| - 1] as int - '0' as int)
  }

  function Signed(s: string): int { if s != "" && s[0] == '-' then -Number(s[1..]) else Number(s) }

  predicate AllDigits(s: string) { s != "" && forall i :: 0 <= i < |s| ==> '0' <= s[i] <= '9' }

  lemma {:induction false} DigitsRead(n: nat)
    ensures AllDigits(Decimal(n)) && Number(Decimal(n)) == n && (n > 0 ==> Decimal(n)[0] != '0')
  {
    if n >= 10 {
      DigitsRead(n / 10);
      assert Decimal(n)[..|Decimal(n)| - 1] == Decimal(n / 10);
    } else {
      assert Decimal(n)[..0] == "" && Number("") == 0;
    }
  }

  // Reading the digits back gives the number.
  lemma {:induction false} DecimalReads(n: int)
    ensures Signed(Decimal(n)) == n && AllDigits(if n < 0 then Decimal(n)[1..] else Decimal(n))
  {
    if n < 0 {
      DigitsRead(-n);
      assert Decimal(n)[1..] == Decimal(-n);
    } else {
      DigitsRead(n);
    }
  }

  lemma {:induction false} DecimalNulFree(n: int)
    ensures NulFree(Decimal(n))
    decreases if n < 0 then 1 - n else n
  {
    if n < 0 {
      DecimalNulFree(-n);
    } else if n >= 10 {
      DecimalNulFree(n / 10);
    }
  }

  function Arguments(port: int, command: seq<string>): seq<string> {
    ["new", "-i", "127.0.0.1"] + (if port != 0 then ["-p", Decimal(port)] else [])
    + ["-c", "256", "-l", "LANG=en_US.UTF-8"]
    + (if command != [] then ["--"] + command else [])
  }

  /* Pieces of a script, each ending between words */

  datatype Piece =
    | Say(words: seq<string>)        // unquoted words, a blank after each
    | Op(op: char)                   // an operator
    | Cut(word: string, op: char)    // an unquoted word ended by an operator
    | Gap                            // a blank
    | Quote(text: string)            // a quoted word and a blank
    | Args(args: seq<string>)        // the quoted arguments, ended by a semicolon

  function TextOf(p: Piece): string {
    match p
    case Say(words) => Spoken(words)
    case Op(op) => [op]
    case Cut(word, op) => word + [op]
    case Gap => " "
    case Quote(text) => ShellWord(text) + " "
    case Args(args) => Join(Quoted(args)) + ";"
  }

  function TokensOf(p: Piece): seq<Token> {
    match p
    case Say(words) => Words(words)
    case Op(op) => [Operator(op)]
    case Cut(word, op) => [Word(word), Operator(op)]
    case Gap => []
    case Quote(text) => [Word(text)]
    case Args(args) => Words(args) + [Operator(';')]
  }

  // The pieces' texts in a row, each as `text` writes it.
  function Texts(text: Piece -> string, ps: seq<Piece>): string {
    if ps == [] then "" else Texts(text, ps[..|ps| - 1]) + text(ps[|ps| - 1])
  }

  // The pieces' tokens in a row, each as `read` gives them.
  function Tokens(read: Piece -> seq<Token>, ps: seq<Piece>): seq<Token> {
    if ps == [] then [] else Tokens(read, ps[..|ps| - 1]) + read(ps[|ps| - 1])
  }

  predicate Proper(p: Piece) {
    match p
    case Say(words) => forall i :: 0 <= i < |words| ==> Plain(words[i])
    case Op(op) => IsOperator(op)
    case Cut(word, op) => Plain(word) && IsOperator(op)
    case Gap => true
    case Quote(text) => NulFree(text)
    case Args(args) => args != [] && AllNulFree(args)
  }

  // Reading a, between words, leads to between words again, with these tokens more.
  ghost predicate Says(done: seq<Token>, a: string, ts: seq<Token>) {
    Run(Lexer(Bare, None, done), a) == Lexer(Bare, None, done + ts)
  }

  ghost predicate Means(a: string, ts: seq<Token>) { forall done: seq<Token> :: Says(done, a, ts) }

  lemma {:induction false} MeansThen(a: string, b: string, ts: seq<Token>, us: seq<Token>)
    requires Means(a, ts) && Means(b, us)
    ensures Means(a + b, ts + us)
  {
    forall done: seq<Token> ensures Says(done, a + b, ts + us) {
      RunAppend(Lexer(Bare, None, done), a, b);
      assert Says(done, a, ts);
      assert Says(done + ts, b, us);
      assert done + ts + us == done + (ts + us);
    }
  }

  lemma {:induction false} MeansSpoken(words: seq<string>)
    requires forall i :: 0 <= i < |words| ==> Plain(words[i])
    ensures Means(Spoken(words), Words(words))
  {
    forall done: seq<Token> ensures Says(done, Spoken(words), Words(words)) {
      SpokenReads(Lexer(Bare, None, done), words);
    }
  }

  lemma {:induction false} MeansOperator(c: char)
    requires IsOperator(c)
    ensures Means([c], [Operator(c)])
  {
    forall done: seq<Token> ensures Says(done, [c], [Operator(c)]) {
      One(Lexer(Bare, None, done), c);
    }
  }

  lemma {:induction false} MeansBlank()
    ensures Means(" ", [])
  {
    forall done: seq<Token> ensures Says(done, " ", []) {
      One(Lexer(Bare, None, done), ' ');
      assert done + [] == done;
    }
  }

  lemma {:induction false} MeansPlainOp(w: string, c: char)
    requires Plain(w) && IsOperator(c)
    ensures Means(w + [c], [Word(w), Operator(c)])
  {
    forall done: seq<Token> ensures Says(done, w + [c], [Word(w), Operator(c)]) {
      PlainThen(Lexer(Bare, None, done), w, c);
      assert done + [Word(w)] + [Operator(c)] == done + [Word(w), Operator(c)];
    }
  }

  lemma {:induction false} MeansQuoted(s: string)
    requires NulFree(s)
    ensures Means(ShellWord(s) + " ", [Word(s)])
  {
    forall done: seq<Token> ensures Says(done, ShellWord(s) + " ", [Word(s)]) {
      var l := Lexer(Bare, None, done);
      RunAppend(l, ShellWord(s), " ");
      NewWord(l, s);
      One(l.(word := Some(s)), ' ');
    }
  }

  lemma {:induction false} MeansArgs(args: seq<string>)
    requires args != [] && AllNulFree(args)
    ensures Means(Join(Quoted(args)) + ";", Words(args) + [Operator(';')])
  {
    forall done: seq<Token> ensures Says(done, Join(Quoted(args)) + ";", Words(args) + [Operator(';')]) {
      var l, n := Lexer(Bare, None, done), |args| - 1;
      RunAppend(l, Join(Quoted(args)), ";");
      JoinReads(l, args);
      One(Run(l, Join(Quoted(args))), ';');
      assert done + Words(args[..n]) + [Word(args[n])] + [Operator(';')] == done + (Words(args) + [Operator(';')]);
    }
  }

  lemma {:induction false} PieceMeans(p: Piece)
    requires Proper(p)
    ensures Means(TextOf(p), TokensOf(p))
  {
    match p
    case Say(words) => MeansSpoken(words);
    case Op(op) => MeansOperator(op);
    case Cut(word, op) => MeansPlainOp(word, op);
    case Gap => MeansBlank();
    case Quote(text) => MeansQuoted(text);
    case Args(args) => MeansArgs(args);
  }

  lemma {:induction false} PiecesMean(ps: seq<Piece>)
    requires AllProper(ps)
    ensures Means(Texts(TextOf, ps), Tokens(TokensOf, ps))
    decreases |ps|
  {
    if ps == [] {
      forall done: seq<Token> ensures Says(done, "", []) { assert done + [] == done; }
    } else {
      var n := |ps| - 1;
      PiecesMean(ps[..n]);
      PieceMeans(ps[n]);
      MeansThen(Texts(TextOf, ps[..n]), TextOf(ps[n]), Tokens(TokensOf, ps[..n]), TokensOf(ps[n]));
    }
  }

  /* The discovery script */

  const HOMEBREW := "/opt/homebrew/bin/mosh-server"
  const LOCAL := "/usr/local/bin/mosh-server"
  const MISSING := "mosh-server not found; install Mosh or use --mosh-server PATH"

  // The text around the three copies of the arguments.
  const FIRST := "if command -v mosh-server >/dev/null 2>&1; " + "then exec mosh-server "
  const SECOND_PLACE := "; elif [ -x " + HOMEBREW + " ]; then exec " + HOMEBREW + " "
  const THIRD_PLACE := "; elif [ -x " + LOCAL + " ]; then exec " + LOCAL + " "
  const LAST := "; else printf '%s\\n' '" + MISSING + "' >&2; exit 127; fi"

  // The script up to its final "fi": look for mosh-server on the PATH and in two places, and run what is found.
  function Discovery(args: seq<string>): seq<Piece> {
    First(args) + Elsewhere(HOMEBREW, args) + Elsewhere(LOCAL, args) + Finally()
  }

  // Look on the PATH, quietly.
  function First(args: seq<string>): seq<Piece> {
    [Say(["if", "command", "-v", "mosh-server"])]
    + [Op('>'), Say(["/dev/null"]), Cut("2", '>'), Op('&'), Cut("1", ';'), Gap]
    + Exec("mosh-server", args)
  }

  function Exec(path: string, args: seq<string>): seq<Piece> { [Say(["then", "exec", path]), Args(args), Gap] }

  function Elsewhere(path: string, args: seq<string>): seq<Piece> {
    [Say(["elif", "[", "-x", path]), Cut("]", ';'), Gap] + Exec(path, args)
  }

  function Finally(): seq<Piece> {
    [Say(["else", "printf"]), Quote("%s\\n"), Quote(MISSING)]
    + [Op('>'), Op('&'), Cut("2", ';'), Gap]
    + [Say(["exit"]), Cut("127", ';'), Gap]
  }

  function Script(args: seq<string>): string { Texts(TextOf, Discovery(args)) + "fi" }

  predicate AllProper(ps: seq<Piece>) { forall i :: 0 <= i < |ps| ==> Proper(ps[i]) }

  lemma {:induction false} ElsewhereProper(path: string, args: seq<string>)
    requires Plain(path) && args != [] && AllNulFree(args)
    ensures AllProper(Elsewhere(path, args))
  {
  }

  lemma {:induction false} OpeningWords()
    ensures Plain("if") && Plain("command") && Plain("-v") && Plain("mosh-server") && Plain("/dev/null")
  {
    assert forall i :: 0 <= i < |"mosh-server"| ==> Ordinary("mosh-server"[i]);
  }

  lemma {:induction false} FirstProper(args: seq<string>)
    requires args != [] && AllNulFree(args)
    ensures AllProper(First(args))
  {
    OpeningWords();
    assert Plain("2") && Plain("1") && Plain("then") && Plain("exec");
  }

  lemma {:induction false} FrontHalf()
    ensures MISSING[..31] == "mosh-server not found; install "
  {
  }

  lemma {:induction false} BackHalf()
    ensures MISSING[31..] == "Mosh or use --mosh-server PATH"
  {
  }

  lemma {:induction false} Halves(s: string, n: nat)
    requires n <= |s|
    ensures s == s[..n] + s[n..]
  {
  }

  lemma {:induction false} MissingHalves()
    ensures MISSING == "mosh-server not found; install " + "Mosh or use --mosh-server PATH"
  {
    FrontHalf();
    BackHalf();
    Halves(MISSING, 31);
  }

  lemma {:induction false} MissingNulFree()
    ensures NulFree(MISSING)
  {
    MissingHalves();
    NulFreeParts("mosh-server not found; install ", "Mosh or use --mosh-server PATH");
  }

  lemma {:induction false} FinallyProper()
    ensures AllProper(Finally())
  {
    assert Plain("else") && Plain("printf") && Plain("exit");
    assert Plain("2") && Plain("127");
    assert NulFree("%s\\n");
    MissingNulFree();
  }

  lemma {:induction false} DiscoveryProper(args: seq<string>)
    requires args != [] && AllNulFree(args)
    ensures AllProper(Discovery(args))
  {
    FirstProper(args);
    assert Plain(HOMEBREW);
    ElsewhereProper(HOMEBREW, args);
    assert Plain(LOCAL);
    ElsewhereProper(LOCAL, args);
    FinallyProper();
  }

  lemma {:induction false} FiReads(l: Lexer)
    requires l.Lexer? && l.mode.Bare? && l.word.None?
    ensures Run(l, "fi") == l.(word := Some("fi"))
  {
    PlainReads(l, "fi");
    assert "" + "fi" == "fi";
  }

  // The script's tokens: its own words and operators, and at each place the arguments, unchanged.
  lemma {:induction false} ScriptReads(args: seq<string>)
    requires args != [] && AllNulFree(args)
    ensures Lex(Script(args)) == Some(Tokens(TokensOf, Discovery(args)) + [Word("fi")])
  {
    DiscoveryProper(args);
    PiecesMean(Discovery(args));
    assert Says([], Texts(TextOf, Discovery(args)), Tokens(TokensOf, Discovery(args)));
    RunAppend(START, Texts(TextOf, Discovery(args)), "fi");
    var l := Lexer(Bare, None, Tokens(TokensOf, Discovery(args)));
    assert [] + Tokens(TokensOf, Discovery(args)) == Tokens(TokensOf, Discovery(args));
    FiReads(l);
  }

  /* Where the arguments are among the script's tokens */

  lemma {:induction false} TokensAppend(read: Piece -> seq<Token>, ps: seq<Piece>, qs: seq<Piece>)
    ensures Tokens(read, ps + qs) == Tokens(read, ps) + Tokens(read, qs)
    decreases |qs|
  {
    if qs == [] {
      assert ps + qs == ps;
    } else {
      var all, front, last := ps + qs, qs[..|qs| - 1], qs[|qs| - 1];
      TokensAppend(read, ps, front);
      assert all[..|all| - 1] == ps + front && all[|all| - 1] == last;
      assert Tokens(read, all) == Tokens(read, ps) + Tokens(read, front) + read(last);
      Behind(Tokens(read, ps), Tokens(read, front), read(last));
    }
  }

  lemma {:induction false} TokensFew(read: Piece -> seq<Token>, a: Piece, b: Piece, c: Piece)
    ensures Tokens(read, [a]) == read(a)
    ensures Tokens(read, [a, b, c]) == read(a) + read(b) + read(c)
  {
    assert [a][..0] == [];
    assert Tokens(read, [a]) == read(a);
    assert [a, b][..1] == [a];
    assert [a, b, c][..2] == [a, b];
  }

  lemma {:induction false} LastWord(words: seq<string>)
    requires words != []
    ensures Words(words)[|words| - 1] == Word(words[|words| - 1])
  {
  }

  // The program to run, then exactly the arguments, then the end of the command.
  ghost predicate Runs(ts: seq<Token>, i: nat, path: string, args: seq<string>) {
    && 0 < i && i + |args| < |ts|
    && ts[i - 1] == Word(path) && ts[i..i + |args|] == Words(args) && ts[i + |args|] == Operator(';')
  }

  lemma {:induction false} ExecRuns(path: string, args: seq<string>)
    ensures var ts := Tokens(TokensOf, Exec(path, args)); |ts| == 4 + |args| && Runs(ts, 3, path, args)
  {
    TokensFew(TokensOf, Say(["then", "exec", path]), Args(args), Gap);
    LastWord(["then", "exec", path]);
    var ts, w := Tokens(TokensOf, Exec(path, args)), Words(["then", "exec", path]);
    assert ts == w + Words(args) + [Operator(';')];
  }

  lemma {:induction false} RunsLater(before: seq<Token>, ts: seq<Token>, after: seq<Token>, i: nat, path: string,
                                     args: seq<string>)
    requires Runs(ts, i, path, args)
    ensures Runs(before + ts + after, |before| + i, path, args)
  {
    var all, k := before + ts + after, |before| + i;
    assert all[k - 1] == ts[i - 1] && all[k + |args|] == ts[i + |args|];
    assert all[k..k + |args|] == ts[i..i + |args|];
  }

  lemma {:induction false} HushTokens()
    ensures |Tokens(TokensOf, [Op('>'), Say(["/dev/null"]), Cut("2", '>'), Op('&'), Cut("1", ';'), Gap])| == 7
  {
    TokensAppend(TokensOf, [Op('>'), Say(["/dev/null"]), Cut("2", '>')], [Op('&'), Cut("1", ';'), Gap]);
    TokensFew(TokensOf, Op('>'), Say(["/dev/null"]), Cut("2", '>'));
    TokensFew(TokensOf, Op('&'), Cut("1", ';'), Gap);
    assert [Op('>'), Say(["/dev/null"]), Cut("2", '>')] + [Op('&'), Cut("1", ';'), Gap]
        == [Op('>'), Say(["/dev/null"]), Cut("2", '>'), Op('&'), Cut("1", ';'), Gap];
  }

  lemma {:induction false} FirstRuns(args: seq<string>)
    ensures var ts := Tokens(TokensOf, First(args)); |ts| == 15 + |args| && Runs(ts, 14, "mosh-server", args)
  {
    var look := [Say(["if", "command", "-v", "mosh-server"])];
    var hush := [Op('>'), Say(["/dev/null"]), Cut("2", '>'), Op('&'), Cut("1", ';'), Gap];
    TokensFew(TokensOf, look[0], Gap, Gap);
    HushTokens();
    ExecRuns("mosh-server", args);
    TokensAppend(TokensOf, look, hush);
    TokensAppend(TokensOf, look + hush, Exec("mosh-server", args));
    RunsLater(Tokens(TokensOf, look + hush), Tokens(TokensOf, Exec("mosh-server", args)), [], 3, "mosh-server", args);
    assert Tokens(TokensOf, look + hush) + Tokens(TokensOf, Exec("mosh-server", args)) + []
        == Tokens(TokensOf, First(args));
  }

  lemma {:induction false} ElsewhereRuns(path: string, args: seq<string>)
    ensures var ts := Tokens(TokensOf, Elsewhere(path, args)); |ts| == 10 + |args| && Runs(ts, 9, path, args)
  {
    var test := [Say(["elif", "[", "-x", path]), Cut("]", ';'), Gap];
    TokensFew(TokensOf, test[0], test[1], test[2]);
    ExecRuns(path, args);
    TokensAppend(TokensOf, test, Exec(path, args));
    RunsLater(Tokens(TokensOf, test), Tokens(TokensOf, Exec(path, args)), [], 3, path, args);
    assert Tokens(TokensOf, test) + Tokens(TokensOf, Exec(path, args)) + [] == Tokens(TokensOf, Elsewhere(path, args));
  }

  lemma {:induction false} ThreeRuns(x: seq<Token>, y: seq<Token>, z: seq<Token>, w: seq<Token>, args: seq<string>)
    requires |x| == 15 + |args| && Runs(x, 14, "mosh-server", args)
    requires |y| == 10 + |args| && Runs(y, 9, HOMEBREW, args) && Runs(z, 9, LOCAL, args)
    ensures var ts, n := x + y + z + w, |args|;
            Runs(ts, 14, "mosh-server", args) && Runs(ts, 24 + n, HOMEBREW, args) && Runs(ts, 34 + 2 * n, LOCAL, args)
  {
    var ts := x + y + z + w;
    RunsLater([], x, y + z + w, 14, "mosh-server", args);
    assert [] + x + (y + z + w) == ts;
    RunsLater(x, y, z + w, 9, HOMEBREW, args);
    assert x + y + (z + w) == ts;
    RunsLater(x + y, z, w, 9, LOCAL, args);
  }

  // Each of the three commands of the script runs its mosh-server with exactly the arguments.
  lemma {:induction false} ScriptRuns(args: seq<string>)
    ensures var ts, n := Tokens(TokensOf, Discovery(args)) + [Word("fi")], |args|;
            Runs(ts, 14, "mosh-server", args) && Runs(ts, 24 + n, HOMEBREW, args) && Runs(ts, 34 + 2 * n, LOCAL, args)
  {
    var a, b, c, d := First(args), Elsewhere(HOMEBREW, args), Elsewhere(LOCAL, args), Finally();
    FirstRuns(args);
    ElsewhereRuns(HOMEBREW, args);
    ElsewhereRuns(LOCAL, args);
    TokensAppend(TokensOf, a, b);
    TokensAppend(TokensOf, a + b, c);
    TokensAppend(TokensOf, a + b + c, d);
    var w := Tokens(TokensOf, d) + [Word("fi")];
    ThreeRuns(Tokens(TokensOf, a), Tokens(TokensOf, b), Tokens(TokensOf, c), w, args);
    Behind(Tokens(TokensOf, a) + Tokens(TokensOf, b) + Tokens(TokensOf, c), Tokens(TokensOf, d), [Word("fi")]);
  }

  lemma {:induction false} Behind(a: seq<Token>, b: seq<Token>, c: seq<Token>)
    ensures a + (b + c) == a + b + c
  {
  }

  /* The script as it is written */

  lemma {:induction false} SpokenWords(a: string, b: string, c: string, d: string)
    ensures Spoken([a]) == a + " "
    ensures Spoken([a, b]) == a + " " + b + " "
    ensures Spoken([a, b, c]) == a + " " + b + " " + c + " "
    ensures Spoken([a, b, c, d]) == a + " " + b + " " + c + " " + d + " "
  {
    assert [a][..0] == [];
    assert Spoken([a]) == a + " ";
    assert [a, b][..1] == [a];
    assert [a, b, c][..2] == [a, b];
    assert [a, b, c, d][..3] == [a, b, c];
  }

  lemma {:induction false} Grouped(a: string, b: string, c: string)
    ensures a + (b + c) == a + b + c
  {
  }

  lemma {:induction false} TextsAppend(text: Piece -> string, ps: seq<Piece>, qs: seq<Piece>)
    ensures Texts(text, ps + qs) == Texts(text, ps) + Texts(text, qs)
    decreases |qs|
  {
    if qs == [] {
      assert ps + qs == ps;
    } else {
      var all, front, last := ps + qs, qs[..|qs| - 1], qs[|qs| - 1];
      TextsAppend(text, ps, front);
      assert all[..|all| - 1] == ps + front && all[|all| - 1] == last;
      Grouped(Texts(text, ps), Texts(text, front), text(last));
    }
  }

  lemma {:induction false} TextsOf(text: Piece -> string, a: Piece, b: Piece, c: Piece, d: Piece)
    ensures Texts(text, [a]) == text(a)
    ensures Texts(text, [a, b, c]) == text(a) + text(b) + text(c)
    ensures Texts(text, [a, b, c, d]) == text(a) + text(b) + text(c) + text(d)
  {
    assert [a][..0] == [];
    assert Texts(text, [a]) == text(a);
    assert [a, b][..1] == [a];
    assert [a, b, c][..2] == [a, b];
    assert [a, b, c, d][..3] == [a, b, c];
  }

  lemma {:induction false} LookText()
    ensures Spoken(["if", "command", "-v", "mosh-server"]) == "if command -v mosh-server "
  {
    SpokenWords("if", "command", "-v", "mosh-server");
  }

  lemma {:induction false} HushText()
    ensures Texts(TextOf, [Op('>'), Say(["/dev/null"]), Cut("2", '>')] + [Op('&'), Cut("1", ';'), Gap])
            == ">/dev/null 2>&1; "
  {
    TextsAppend(TextOf, [Op('>'), Say(["/dev/null"]), Cut("2", '>')], [Op('&'), Cut("1", ';'), Gap]);
    TextsOf(TextOf, Op('>'), Say(["/dev/null"]), Cut("2", '>'), Gap);
    TextsOf(TextOf, Op('&'), Cut("1", ';'), Gap, Gap);
    SpokenWords("/dev/null", "", "", "");
    assert ['>'] + ("/dev/null" + " ") + ("2" + ['>']) == ">/dev/null 2>";
    assert ['&'] + ("1" + [';']) + " " == "&1; ";
    assert ">/dev/null 2>" + "&1; " == ">/dev/null 2>&1; ";
  }

  lemma {:induction false} ExecText(path: string, args: seq<string>)
    ensures Texts(TextOf, Exec(path, args)) == "then exec " + (path + " " + Join(Quoted(args)) + "; ")
  {
    TextsOf(TextOf, Say(["then", "exec", path]), Args(args), Gap, Gap);
    SpokenWords("then", "exec", path, "");
    assert "then" + " " + "exec" + " " == "then exec " && ";" + " " == "; ";
    Tail("then exec ", path, " ", Join(Quoted(args)), ";", " ");
  }

  lemma {:induction false} Tail(a: string, b: string, c: string, d: string, e: string, f: string)
    ensures a + b + c + (d + e) + f == a + (b + c + d + (e + f))
  {
  }

  lemma {:induction false} FirstSplits()
    ensures FIRST == "if command -v mosh-server " + ">/dev/null 2>&1; " + ("then exec " + ("mosh-server" + " "))
  {
    assert "if command -v mosh-server >/dev/null 2>&1; " == "if command -v mosh-server " + ">/dev/null 2>&1; ";
    assert "then exec mosh-server " == "then exec " + ("mosh-server" + " ");
  }

  lemma {:induction false} FirstText(args: seq<string>)
    ensures Texts(TextOf, First(args)) == FIRST + Join(Quoted(args)) + "; "
  {
    var look := [Say(["if", "command", "-v", "mosh-server"])];
    var hush := [Op('>'), Say(["/dev/null"]), Cut("2", '>')] + [Op('&'), Cut("1", ';'), Gap];
    assert First(args) == look + hush + Exec("mosh-server", args);
    TextsAppend(TextOf, look + hush, Exec("mosh-server", args));
    TextsAppend(TextOf, look, hush);
    TextsOf(TextOf, look[0], Gap, Gap, Gap);
    LookText();
    HushText();
    ExecText("mosh-server", args);
    FirstSplits();
    Nested("if command -v mosh-server " + ">/dev/null 2>&1; ", "then exec ", "mosh-server" + " ", Join(Quoted(args)),
           "; ");
  }

  lemma {:induction false} Nested(a: string, b: string, c: string, d: string, e: string)
    ensures a + (b + (c + d + e)) == a + (b + c) + d + e
  {
  }

  lemma {:induction false} TestText(path: string)
    ensures Texts(TextOf, [Say(["elif", "[", "-x", path]), Cut("]", ';'), Gap])
         == "elif [ -x " + path + " " + ("]" + [';']) + " "
  {
    TextsOf(TextOf, Say(["elif", "[", "-x", path]), Cut("]", ';'), Gap, Gap);
    SpokenWords("elif", "[", "-x", path);
    assert "elif" + " " + "[" + " " + "-x" + " " == "elif [ -x ";
  }

  // One further place to look.
  lemma {:induction false} ElsewhereText(path: string, args: seq<string>)
    ensures Texts(TextOf, Elsewhere(path, args))
         == "elif [ -x " + path + " ]; then exec " + (path + " " + Join(Quoted(args)) + "; ")
  {
    var test := [Say(["elif", "[", "-x", path]), Cut("]", ';'), Gap];
    TestText(path);
    ExecText(path, args);
    TextsAppend(TextOf, test, Exec(path, args));
    assert " " + ("]" + [';']) + " " + "then exec " == " ]; then exec ";
    Shift("elif [ -x " + path, " ", "]" + [';'], " ", "then exec ", path + " " + Join(Quoted(args)) + "; ");
  }

  lemma {:induction false} Shift(a: string, b: string, c: string, d: string, e: string, f: string)
    ensures a + b + c + d + (e + f) == a + (b + c + d + e) + f
  {
  }

  lemma {:induction false} EscapeNothing(s: string)
    requires forall i :: 0 <= i < |s| ==> s[i] != '\''
    ensures Escape(s) == s
    decreases |s|
  {
    if s != "" {
      EscapeNothing(s[1..]);
      assert s == [s[0]] + s[1..];
    }
  }

  lemma {:induction false} MissingUnquoted()
    ensures forall i :: 0 <= i < |MISSING| ==> MISSING[i] != '\''
  {
    var a, b := "mosh-server not found; install ", "Mosh or use --mosh-server PATH";
    MissingHalves();
    assert forall i :: 0 <= i < |a| ==> a[i] != '\'';
    assert forall i :: 0 <= i < |b| ==> b[i] != '\'';
  }

  lemma {:induction false} SayText(m: string)
    requires forall i :: 0 <= i < |m| ==> m[i] != '\''
    ensures Texts(TextOf, [Say(["else", "printf"]), Quote("%s\\n"), Quote(m)])
         == "else printf " + "'%s\\n' " + ("'" + m + "'" + " ")
  {
    TextsOf(TextOf, Say(["else", "printf"]), Quote("%s\\n"), Quote(m), Gap);
    SpokenWords("else", "printf", "", "");
    assert "else" + " " + "printf" + " " == "else printf ";
    EscapeNothing("%s\\n");
    assert "'" + "%s\\n" + "'" + " " == "'%s\\n' ";
    EscapeNothing(m);
  }

  lemma {:induction false} ToStderrText()
    ensures Texts(TextOf, [Op('>'), Op('&'), Cut("2", ';'), Gap]) == ">&2; "
  {
    TextsOf(TextOf, Op('>'), Op('&'), Cut("2", ';'), Gap);
    assert ['>'] + ['&'] + ("2" + [';']) + " " == ">&2; ";
  }

  lemma {:induction false} ExitText()
    ensures Texts(TextOf, [Say(["exit"]), Cut("127", ';'), Gap]) == "exit 127; "
  {
    TextsOf(TextOf, Say(["exit"]), Cut("127", ';'), Gap, Gap);
    SpokenWords("exit", "", "", "");
    assert "exit" + " " + ("127" + [';']) + " " == "exit 127; ";
  }

  lemma {:induction false} FinallyText()
    ensures "; " + Texts(TextOf, Finally()) + "fi" == LAST
  {
    var say := [Say(["else", "printf"]), Quote("%s\\n"), Quote(MISSING)];
    var err, out := [Op('>'), Op('&'), Cut("2", ';'), Gap], [Say(["exit"]), Cut("127", ';'), Gap];
    MissingUnquoted();
    SayText(MISSING);
    ToStderrText();
    ExitText();
    TextsAppend(TextOf, say, err);
    TextsAppend(TextOf, say + err, out);
    LastText(MISSING);
  }

  lemma {:induction false} LastText(m: string)
    ensures "; " + ("else printf " + "'%s\\n' " + ("'" + m + "'" + " ") + ">&2; " + "exit 127; ") + "fi"
         == "; else printf '%s\\n' '" + m + "' >&2; exit 127; fi"
  {
    assert "; " + "else printf " + "'%s\\n' " + "'" == "; else printf '%s\\n' '";
    assert "'" + " " + ">&2; " + "exit 127; " + "fi" == "' >&2; exit 127; fi";
    Unwrap("; ", "else printf ", "'%s\\n' ", m, ">&2; ", "exit 127; ", "fi");
  }

  lemma {:induction false} Unwrap(a: string, b: string, c: string, m: string, d: string, e: string, f: string)
    ensures a + (b + c + ("'" + m + "'" + " ") + d + e) + f == (a + b + c + "'") + m + ("'" + " " + d + e + f)
  {
  }

  lemma {:induction false} PlaceText(path: string)
    ensures "; " + ("elif [ -x " + path + " ]; then exec ") + path + " "
         == "; elif [ -x " + path + " ]; then exec " + path + " "
  {
    assert "; " + "elif [ -x " == "; elif [ -x ";
    assert "; " + ("elif [ -x " + path + " ]; then exec ") == "; " + "elif [ -x " + path + " ]; then exec ";
  }

  // The script is the text around the arguments, with the quoted arguments in three places.
  lemma {:induction false} ScriptText(args: seq<string>)
    ensures var line := Join(Quoted(args));
            Script(args) == FIRST + line + SECOND_PLACE + line + THIRD_PLACE + line + LAST
  {
    var line := Join(Quoted(args));
    FirstText(args);
    ElsewhereText(HOMEBREW, args);
    ElsewhereText(LOCAL, args);
    FinallyText();
    TextsAppend(TextOf, First(args), Elsewhere(HOMEBREW, args));
    TextsAppend(TextOf, First(args) + Elsewhere(HOMEBREW, args), Elsewhere(LOCAL, args));
    TextsAppend(TextOf, First(args) + Elsewhere(HOMEBREW, args) + Elsewhere(LOCAL, args), Finally());
    PlaceText(HOMEBREW);
    PlaceText(LOCAL);
    Weave(FIRST, "elif [ -x " + HOMEBREW + " ]; then exec ", HOMEBREW, "elif [ -x " + LOCAL + " ]; then exec ", LOCAL,
          Texts(TextOf, Finally()), line);
  }

  lemma {:induction false} Weave(a: string, b: string, p: string, c: string, q: string, d: string, line: string)
    ensures (a + line + "; ") + (b + (p + " " + line + "; ")) + (c + (q + " " + line + "; ")) + d + "fi"
         == a + line + ("; " + b + p + " ") + line + ("; " + c + q + " ") + line + ("; " + d + "fi")
  {
  }

  /* NULs */

  lemma {:induction false} NulFreeParts(a: string, b: string)
    ensures NulFree(a + b) <==> NulFree(a) && NulFree(b)
  {
    if NulFree(a + b) {
      forall i | 0 <= i < |a| ensures a[i] != '\0' { assert (a + b)[i] == a[i]; }
      forall i | 0 <= i < |b| ensures b[i] != '\0' { assert (a + b)[|a| + i] == b[i]; }
    }
  }

  lemma {:induction false} ReadsNulFree(l: Lexer, s: string)
    requires Run(l, s).Lexer?
    ensures NulFree(s)
    decreases |s|
  {
    if s != "" {
      if Step(l, s[0]).Refused? { RunRefused(s[1..]); }
      ReadsNulFree(Step(l, s[0]), s[1..]);
      assert s == [s[0]] + s[1..];
      NulFreeParts([s[0]], s[1..]);
    }
  }

  lemma {:induction false} EscapeKeepsNul(s: string)
    requires NulFree(Escape(s))
    ensures NulFree(s)
    decreases |s|
  {
    if s != "" {
      NulFreeParts(if s[0] == '\'' then "'\"'\"'" else [s[0]], Escape(s[1..]));
      EscapeKeepsNul(s[1..]);
      if s[0] != '\'' { assert [s[0]][0] != '\0'; }
      NulFreeParts([s[0]], s[1..]);
      assert s == [s[0]] + s[1..];
    }
  }

  lemma {:induction false} WordKeepsNul(s: string)
    requires NulFree(ShellWord(s))
    ensures NulFree(s)
  {
    NulFreeParts("'" + Escape(s), "'");
    NulFreeParts("'", Escape(s));
    EscapeKeepsNul(s);
  }

  lemma {:induction false} JoinKeepsNul(words: seq<string>)
    requires NulFree(Join(Quoted(words)))
    ensures AllNulFree(words)
    decreases |words|
  {
    if words != [] {
      var n := |words| - 1;
      LastSplits(words);
      if n > 0 {
        NulFreeParts(Join(Quoted(words[..n])) + " ", ShellWord(words[n]));
        NulFreeParts(Join(Quoted(words[..n])), " ");
        JoinKeepsNul(words[..n]);
      }
      WordKeepsNul(words[n]);
    }
  }

  lemma {:induction false} PieceInTexts(text: Piece -> string, ps: seq<Piece>, i: nat)
    requires i < |ps| && NulFree(Texts(text, ps))
    ensures NulFree(text(ps[i]))
    decreases |ps|
  {
    var n := |ps| - 1;
    NulFreeParts(Texts(text, ps[..n]), text(ps[n]));
    if i < n { PieceInTexts(text, ps[..n], i); }
  }

  // The script holds a NUL exactly when an argument does.
  lemma {:induction false} ScriptNulFree(args: seq<string>)
    requires args != []
    ensures NulFree(Script(args)) <==> AllNulFree(args)
  {
    if AllNulFree(args) {
      ScriptReads(args);
      ReadsNulFree(START, Script(args));
    }
    if NulFree(Script(args)) {
      NulFreeParts(Texts(TextOf, Discovery(args)), "fi");
      assert Discovery(args)[8] == Args(args);
      PieceInTexts(TextOf, Discovery(args), 8);
      NulFreeParts(Join(Quoted(args)), ";");
      JoinKeepsNul(args);
    }
  }

  function Command(server: string, port: int, command: seq<string>): string {
    var args := Arguments(port, command);
    if server != "" then ShellWord(server) + " " + Join(Quoted(args)) else "sh -c " + ShellWord(Script(args))
  }

  lemma {:induction false} ArgumentsNulFree(port: int, command: seq<string>)
    ensures Arguments(port, command) != [] && (AllNulFree(Arguments(port, command)) <==> AllNulFree(command))
  {
    DecimalNulFree(port);
    var args := Arguments(port, command);
    var k := |args| - |command|;
    assert args[k..] == command;
    assert forall i :: 0 <= i < |command| ==> args[k + i] == command[i];
    assert AllNulFree(args[..k]);
    assert forall i :: 0 <= i < k ==> args[i] == args[..k][i];
  }

  // With a server path: that path and the arguments, exactly; and only NULs can spoil it.
  lemma {:induction false} DirectCommand(server: string, port: int, command: seq<string>)
    requires server != ""
    ensures Lex(Command(server, port, command)) == Some(Words([server] + Arguments(port, command)))
            <==> NulFree(server) && AllNulFree(command)
  {
    var args := Arguments(port, command);
    ArgumentsNulFree(port, command);
    JoinFirst(server, args);
    QuotingRoundTrip([server] + args);
    assert AllNulFree([server] + args) <==> NulFree(server) && AllNulFree(args) by {
      assert ([server] + args)[0] == server && forall i :: 0 <= i < |args| ==> ([server] + args)[i + 1] == args[i];
    }
  }

  lemma {:induction false} JoinFirst(server: string, args: seq<string>)
    requires args != []
    ensures Join(Quoted([server] + args)) == ShellWord(server) + " " + Join(Quoted(args))
    decreases |args|
  {
    var n := |args| - 1;
    var all, rest, last := [server] + args, args[..n], ShellWord(args[n]);
    LastSplits(all);
    LastSplits(args);
    assert all[..|all| - 1] == [server] + rest && all[|all| - 1] == args[n];
    if n == 0 {
      assert [server] + rest == [server];
      LastSplits([server]);
    } else {
      JoinFirst(server, rest);
      Regroup(ShellWord(server) + " ", Join(Quoted(rest)), " ", last);
    }
  }

  lemma {:induction false} Regroup(a: string, b: string, c: string, d: string)
    ensures a + b + c + d == a + (b + c + d)
  {
  }

  lemma {:induction false} ShDashC()
    ensures Run(START, "sh -c ") == Lexer(Bare, None, [Word("sh"), Word("-c")])
  {
    assert Plain("sh") && Plain("-c");
    PlainThen(START, "sh", ' ');
    assert "sh" + [' '] == "sh ";
    assert [] + [Word("sh")] == [Word("sh")];
    PlainThen(Lexer(Bare, None, [Word("sh")]), "-c", ' ');
    assert "-c" + [' '] == "-c ";
    assert [Word("sh")] + [Word("-c")] == [Word("sh"), Word("-c")];
    RunAppend(START, "sh ", "-c ");
    assert "sh " + "-c " == "sh -c ";
  }

  lemma {:induction false} ShReads(s: string)
    ensures Lex("sh -c " + ShellWord(s)) == if NulFree(s) then Some([Word("sh"), Word("-c"), Word(s)]) else None
  {
    ShDashC();
    RunAppend(START, "sh -c ", ShellWord(s));
    NewWord(Lexer(Bare, None, [Word("sh"), Word("-c")]), s);
    assert [Word("sh"), Word("-c")] + [Word(s)] == [Word("sh"), Word("-c"), Word(s)];
  }

  // The script lexes to three commands, each running its mosh-server with exactly the arguments.
  ghost predicate RunsArguments(script: string, args: seq<string>) {
    && Lex(script).Some?
    && var ts, n := Lex(script).value, |args|;
       Runs(ts, 14, "mosh-server", args) && Runs(ts, 24 + n, HOMEBREW, args) && Runs(ts, 34 + 2 * n, LOCAL, args)
  }

  lemma {:induction false} ScriptRunsArguments(args: seq<string>)
    requires args != [] && AllNulFree(args)
    ensures RunsArguments(Script(args), args)
  {
    ScriptReads(args);
    ScriptRuns(args);
  }

  lemma {:induction false} ScriptIsOneWord(args: seq<string>)
    requires args != []
    ensures Lex("sh -c " + ShellWord(Script(args))) == Some([Word("sh"), Word("-c"), Word(Script(args))])
            <==> AllNulFree(args)
  {
    ScriptNulFree(args);
    ShReads(Script(args));
  }

  // Without one: the remote shell sees `sh -c` with the script as one word exactly when no argument holds a NUL,
  // and the shell that runs the script sees the arguments as they were.
  lemma {:induction false} DiscoveryCommand(port: int, command: seq<string>)
    ensures var args := Arguments(port, command);
            && (Lex(Command("", port, command)) == Some([Word("sh"), Word("-c"), Word(Script(args))])
                <==> AllNulFree(command))
            && (AllNulFree(command) ==> RunsArguments(Script(args), args))
  {
    var args := Arguments(port, command);
    ArgumentsNulFree(port, command);
    ScriptIsOneWord(args);
    if AllNulFree(args) { ScriptRunsArguments(args); }
  }

  // What mosh-server is given: its fixed options, the port if one is chosen, and the command if there is one.
  lemma {:induction false} ArgumentsExactly(port: int, command: seq<string>)
    ensures var args := Arguments(port, command);
            var k := if port == 0 then 3 else 5;
            && |args| == k + 4 + (if command == [] then 0 else 1 + |command|)
            && args[..3] == ["new", "-i", "127.0.0.1"]
            && (port != 0 ==> args[3] == "-p" && Signed(args[4]) == port)
            && args[k..k + 4] == ["-c", "256", "-l", "LANG=en_US.UTF-8"]
            && (command != [] ==> args[k + 4] == "--" && args[k + 5..] == command)
  {
    DecimalReads(port);
  }

  /* The command as it is built */

  method ServerCommand(server: string, port: int, command: seq<string>) returns (line: string)
    ensures line == Command(server, port, command)
  {
    var words := ["new", "-i", "127.0.0.1"];
    if port != 0 {
      words := words + ["-p", Decimal(port)];
    }
    words := words + ["-c", "256", "-l", "LANG=en_US.UTF-8"];
    if |command| > 0 {
      words := words + ["--"];
      words := words + command;
    }
    assert words == Arguments(port, command);
    var quoted := QuoteAll(words);
    var args := Join(quoted);
    if server != "" {
      return ShellWord(server) + " " + args;
    }
    var script := FIRST + args + SECOND_PLACE + args + THIRD_PLACE + args + LAST;
    ScriptText(words);
    return "sh -c " + ShellWord(script);
  }

  // The words rewritten in place.
  method QuoteAll(plain: seq<string>) returns (words: seq<string>)
    ensures words == Quoted(plain)
  {
    words := plain;
    var i := 0;
    while i < |words|
      invariant 0 <= i <= |words| == |plain|
      invariant words[..i] == Quoted(plain[..i]) && words[i..] == plain[i..]
    {
      assert plain[..i + 1][..i] == plain[..i];
      words := words[i := ShellWord(words[i])];
      i := i + 1;
    }
    assert words[..i] == words && plain[..i] == plain;
  }
}
