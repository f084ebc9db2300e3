/** The pasteable command line, against the word splitting of the POSIX Shell Command Language. */
module ShellQuote {
  import opened Wrappers

  // ---- shell_line, shell_quote -------------------------------------------------------------------

  const QUOTE: char := '\''
  const BACKSLASH: char := '\\'

  predicate Alphanumeric(c: char) {
    'a' <= c <= 'z' || 'A' <= c <= 'Z' || '0' <= c <= '9'
  }

  /** Characters an argument may have and still be left unquoted. */
  predicate BareChar(c: char) {
    Alphanumeric(c) || c == '.' || c == '_' || c == '-' || c == '/' || c == '=' || c == ':' || c == '+' || c == '@' || c == ','
  }

  predicate Bare(s: string) {
    s != "" && forall i :: 0 <= i < |s| ==> BareChar(s[i])
  }

  /** Each quote replaced by close, escaped quote, open. */
  function Escape(s: string): string {
    if s == "" then ""
    else (if s[0] == QUOTE then "'\\''" else [s[0]]) + Escape(s[1..])
  }

  function Quoted(s: string): string {
    if Bare(s) then s else "'" + Escape(s) + "'"
  }

  /** Every character that needs no quotes. */
  const UPPER: string := "ABCDEFGHIJKLMNOPQRSTUVWXYZ"
  const LOWER: string := "abcdefghijklmnopqrstuvwxyz"
  const DIGITS: string := "0123456789"
  const SIGNS: string := "./_-=:+@,"
  const PLAIN: string := UPPER + LOWER + DIGITS + SIGNS

  /** An argument is printed as it is exactly when it is not empty and has none but those. */
  lemma PrintedAsIs(s: string)
    ensures Quoted(s) == s <==> s != "" && forall i :: 0 <= i < |s| ==> s[i] in PLAIN
  {
    forall i | 0 <= i < |s| ensures BareChar(s[i]) <==> s[i] in PLAIN {
      PlainChar(s[i]);
    }
    if !Bare(s) {
      LongerEscaped(s);
    }
  }

  lemma {:induction false} LongerEscaped(s: string)
    ensures |Escape(s)| >= |s|
  {
    if s != "" {
      LongerEscaped(s[1..]);
    }
  }

  lemma PlainChar(c: char)
    ensures BareChar(c) <==> c in PLAIN
  {
    UpperChar(c);
    LowerChar(c);
    DigitChar(c);
    assert c in PLAIN <==> c in UPPER || c in LOWER || c in DIGITS || c in SIGNS;
  }

  lemma UpperChar(c: char)
    ensures c in UPPER <==> 'A' <= c <= 'Z'
  {
    if 'A' <= c <= 'Z' {
      var i := c as int - 'A' as int;
      assert i == 0 || i == 1 || i == 2 || i == 3 || i == 4 || i == 5 || i == 6 || i == 7 || i == 8 || i == 9 || i == 10
        || i == 11 || i == 12 || i == 13 || i == 14 || i == 15 || i == 16 || i == 17 || i == 18 || i == 19 || i == 20
        || i == 21 || i == 22 || i == 23 || i == 24 || i == 25;
      assert UPPER[i] == c;
    }
  }

  lemma LowerChar(c: char)
    ensures c in LOWER <==> 'a' <= c <= 'z'
  {
    if 'a' <= c <= 'z' {
      var i := c as int - 'a' as int;
      assert i == 0 || i == 1 || i == 2 || i == 3 || i == 4 || i == 5 || i == 6 || i == 7 || i == 8 || i == 9 || i == 10
        || i == 11 || i == 12 || i == 13 || i == 14 || i == 15 || i == 16 || i == 17 || i == 18 || i == 19 || i == 20
        || i == 21 || i == 22 || i == 23 || i == 24 || i == 25;
      assert LOWER[i] == c;
    }
  }

  lemma DigitChar(c: char)
    ensures c in DIGITS <==> '0' <= c <= '9'
  {
  }

  /** The arguments quoted and joined by single blanks. */
  function Line(argv: seq<string>): string {
    if argv == [] then ""
    else if |argv| == 1 then Quoted(argv[0])
    else Quoted(argv[0]) + " " + Line(argv[1..])
  }

  // ---- word splitting ----------------------------------------------------------------------------

  /** What scanning the rest of a word gives: its text, the part of it before any quoting, and what follows. */
  datatype Scan = Scan(text: string, lead: string, rest: string)

  predicate Blank(c: char) { c == ' ' || c == '\t' }

  /**
   Characters that end a word as operators, expand, or may be given a meaning unquoted (section 2.2 of the
   Shell Command Language, with braces and `!` of section 2.4). `=` has one only in an assignment word.
   */
  predicate Special(c: char) {
    || c == '|' || c == '&' || c == ';' || c == '<' || c == '>' || c == '(' || c == ')' || c == '$' || c == '`'
    || c == '"' || c == '*' || c == '?' || c == '[' || c == '#' || c == '~' || c == '%'
    || c == '!' || c == '{' || c == '}' || c == '\n'
  }

  /** Outside quotes, inside a word: up to an unquoted blank or the end; none if there is more to it than that. */
  function InWord(s: string): (r: Option<Scan>)
    ensures r.Some? ==> |r.value.rest| <= |s|
    ensures r.Some? && s != "" && !Blank(s[0]) ==> |r.value.rest| < |s|
    decreases |s|
  {
    if s == "" || Blank(s[0]) then Some(Scan("", "", s))
    else if s[0] == QUOTE then
      match InQuotes(s[1..])
      case None => None
      case Some(w) => Some(w.(lead := ""))
    else if s[0] == BACKSLASH then
      if |s| < 2 || s[1] == '\n' then None
      else
        match InWord(s[2..])
        case None => None
        case Some(w) => Some(Scan([s[1]] + w.text, "", w.rest))
    else if Special(s[0]) then None
    else
      match InWord(s[1..])
      case None => None
      case Some(w) => Some(Scan([s[0]] + w.text, [s[0]] + w.lead, w.rest))
  }

  /** Inside single quotes everything up to the next one is literal (section 2.2.2). */
  function InQuotes(s: string): (r: Option<Scan>)
    ensures r.Some? ==> |r.value.rest| < |s|
    decreases |s|
  {
    if s == "" then None
    else if s[0] == QUOTE then InWord(s[1..])
    else
      match InQuotes(s[1..])
      case None => None
      case Some(w) => Some(Scan([s[0]] + w.text, "", w.rest))
  }

  /** A word after quote removal, with the part of it that stood before any quoting. */
  datatype Word = Word(text: string, lead: string)

  function Words(s: string): Option<seq<Word>>
    decreases |s|
  {
    if s == "" then Some([])
    else if Blank(s[0]) then Words(s[1..])
    else
      match InWord(s)
      case None => None
      case Some(w) =>
        match Words(w.rest)
        case None => None
        case Some(more) => Some([Word(w.text, w.lead)] + more)
  }

  // ---- round trip --------------------------------------------------------------------------------

  /** What can follow a word. */
  predicate Ends(rest: string) { rest == "" || Blank(rest[0]) }

  /** What the splitter makes of one quoted argument. */
  function AsWord(s: string): Word { Word(s, if Bare(s) then s else "") }

  lemma LiteralChar(c: char, more: string, w: Scan)
    requires BareChar(c) && InWord(more) == Some(w)
    ensures InWord([c] + more) == Some(Scan([c] + w.text, [c] + w.lead, w.rest))
  {
    assert ([c] + more)[1..] == more;
  }

  lemma {:induction false} BareWord(s: string, rest: string)
    requires Ends(rest) && forall i :: 0 <= i < |s| ==> BareChar(s[i])
    ensures InWord(s + rest) == Some(Scan(s, s, rest))
  {
    hide InQuotes;
    if s == "" {
      assert s + rest == rest;
    } else {
      var more := s[1..] + rest;
      BareWord(s[1..], rest);
      assert s == [s[0]] + s[1..];
      assert s + rest == [s[0]] + more;
      LiteralChar(s[0], more, Scan(s[1..], s[1..], rest));
    }
  }

  /** A close, an escaped quote and an open, met inside quotes, read as one quote. */
  lemma QuoteInQuotes(body: string, w: Scan)
    requires InQuotes(body) == Some(w)
    ensures InQuotes("'\\''" + body) == Some(Scan([QUOTE] + w.text, "", w.rest))
  {
    var line, reopened := "'\\''" + body, "'" + body;
    assert reopened[1..] == body;
    assert InWord(reopened) == Some(w.(lead := ""));
    var escaped := "\\''" + body;
    assert escaped[2..] == reopened && escaped[0] == BACKSLASH && escaped[1] == QUOTE;
    assert InWord(escaped) == Some(Scan([QUOTE] + w.text, "", w.rest));
    assert line[1..] == escaped && line[0] == QUOTE;
  }

  lemma CharInQuotes(c: char, body: string, w: Scan)
    requires InQuotes(body) == Some(w) && c != QUOTE
    ensures InQuotes([c] + body) == Some(Scan([c] + w.text, "", w.rest))
  {
    assert ([c] + body)[1..] == body;
  }

  lemma CloseQuotes(rest: string)
    requires Ends(rest)
    ensures InQuotes("'" + rest) == Some(Scan("", "", rest))
  {
    assert ("'" + rest)[1..] == rest;
  }

  lemma EscapeFirst(s: string, tail: string)
    requires s != ""
    ensures Escape(s) + tail == (if s[0] == QUOTE then "'\\''" else [s[0]]) + (Escape(s[1..]) + tail)
  {
    hide InQuotes, InWord;
  }

  /** Inside the quotes, the escaped text gives the text back, embedded quotes and all. */
  lemma {:induction false} EscapedBody(s: string, rest: string)
    requires Ends(rest)
    ensures InQuotes(Escape(s) + ("'" + rest)).Some?
    ensures InQuotes(Escape(s) + ("'" + rest)).value.text == s
    ensures InQuotes(Escape(s) + ("'" + rest)).value.rest == rest
  {
    hide InQuotes, InWord;
    var tail := "'" + rest;
    if s == "" {
      CloseQuotes(rest);
      assert Escape(s) + tail == tail;
    } else {
      var body := Escape(s[1..]) + tail;
      EscapedBody(s[1..], rest);
      EscapeFirst(s, tail);
      hide Escape;
      assert s == [s[0]] + s[1..];
      if s[0] == QUOTE {
        QuoteInQuotes(body, InQuotes(body).value);
      } else {
        CharInQuotes(s[0], body, InQuotes(body).value);
      }
    }
  }

  lemma OpenQuotes(body: string, w: Scan)
    requires InQuotes(body) == Some(w)
    ensures InWord("'" + body) == Some(Scan(w.text, "", w.rest))
  {
    hide InQuotes;
    assert ("'" + body)[1..] == body;
  }

  lemma QuotedWord(s: string, rest: string)
    requires Ends(rest)
    ensures InWord(Quoted(s) + rest) == Some(Scan(s, AsWord(s).lead, rest))
    ensures Quoted(s) != "" && !Blank(Quoted(s)[0])
  {
    hide InQuotes, InWord, Escape;
    if Bare(s) {
      BareWord(s, rest);
      assert BareChar(s[0]);
    } else {
      EscapedBody(s, rest);
      var body := Escape(s) + ("'" + rest);
      OpenQuotes(body, InQuotes(body).value);
      assert Quoted(s) + rest == "'" + body;
    }
  }

  /** Splitting the printed line gives back exactly the arguments, whatever characters they have. */
  lemma {:induction false} RoundTrip(argv: seq<string>)
    ensures Words(Line(argv)).Some? && |Words(Line(argv)).value| == |argv|
    ensures forall i :: 0 <= i < |argv| ==> Words(Line(argv)).value[i] == AsWord(argv[i])
  {
    hide InWord, Quoted;
    if |argv| == 1 {
      QuotedWord(argv[0], "");
      assert Quoted(argv[0]) + "" == Quoted(argv[0]);
      FirstWord(argv[0], "");
    } else if |argv| > 1 {
      var more := " " + Line(argv[1..]);
      RoundTrip(argv[1..]);
      FirstWord(argv[0], more);
      assert Line(argv) == Quoted(argv[0]) + more;
      assert more[1..] == Line(argv[1..]);
      forall i | 0 <= i < |argv| ensures Words(Line(argv)).value[i] == AsWord(argv[i]) {
        if i > 0 {
          assert argv[i] == argv[1..][i - 1];
        }
      }
    }
  }

  /** The first word of a line is its first argument; the rest of the line follows. */
  lemma FirstWord(s: string, rest: string)
    requires Ends(rest)
    ensures Words(Quoted(s) + rest)
      == if Words(rest).Some? then Some([AsWord(s)] + Words(rest).value) else None
  {
    hide InWord, Quoted;
    QuotedWord(s, rest);
    assert (Quoted(s) + rest)[0] == Quoted(s)[0];
  }

  /** Different argument lists are printed differently. */
  lemma LineInjective(a: seq<string>, b: seq<string>)
    requires Line(a) == Line(b)
    ensures a == b
  {
    RoundTrip(a);
    RoundTrip(b);
    forall i | 0 <= i < |a| ensures a[i] == b[i] {
      assert AsWord(a[i]) == AsWord(b[i]);
    }
  }

  // ---- the tuning printer's copy -----------------------------------------------------------------

  /** The other copy of `shell_quote` has no empty case, and quotes commas. */
  function PathQuoted(s: string): string {
    if forall i :: 0 <= i < |s| ==> BareChar(s[i]) && s[i] != ',' then s else "'" + Escape(s) + "'"
  }

  const PATH_PLAIN: string := UPPER + LOWER + DIGITS + "._-/=:+@"

  /** A path is printed as it is exactly when it has none but those characters. */
  lemma PathPrintedAsIs(s: string)
    ensures PathQuoted(s) == s <==> forall i :: 0 <= i < |s| ==> s[i] in PATH_PLAIN
  {
    forall i | 0 <= i < |s| ensures BareChar(s[i]) && s[i] != ',' <==> s[i] in PATH_PLAIN {
      PathChar(s[i]);
    }
    LongerEscaped(s);
  }

  lemma PathChar(c: char)
    ensures BareChar(c) && c != ',' <==> c in PATH_PLAIN
  {
    UpperChar(c);
    LowerChar(c);
    DigitChar(c);
    assert c in PATH_PLAIN <==> c in UPPER || c in LOWER || c in DIGITS || c in "._-/=:+@";
  }

  /** It prints a path as the one word it is exactly when the path is not empty; an empty one disappears. */
  lemma PathIsOneWord(s: string)
    ensures Words(PathQuoted(s)).Some?
    ensures (|Words(PathQuoted(s)).value| == 1 && Words(PathQuoted(s)).value[0].text == s) <==> s != ""
  {
    hide InWord, InQuotes, Escape;
    if forall i :: 0 <= i < |s| ==> BareChar(s[i]) && s[i] != ',' {
      if s != "" {
        BareWord(s, "");
        assert s + "" == s && BareChar(s[0]);
      }
    } else {
      EscapedBody(s, "");
      var body := Escape(s) + ("'" + "");
      OpenQuotes(body, InQuotes(body).value);
      assert PathQuoted(s) == "'" + body;
    }
  }

  // ---- assignments -------------------------------------------------------------------------------

  /** A name of the Shell Command Language: letters, digits and underscores, not starting with a digit. */
  predicate IsName(s: string) {
    && s != "" && !('0' <= s[0] <= '9')
    && (forall i :: 0 <= i < |s| ==> Alphanumeric(s[i]) || s[i] == '_')
  }

  /** Starts with a name and `=`. */
  ghost predicate StartsAssignment(s: string) {
    exists p :: 0 <= p < |s| && s[p] == '=' && IsName(s[..p])
  }

  /** A first word the shell would take for an assignment: a name and `=`, neither of them quoted. */
  ghost predicate IsAssignment(w: Word) { StartsAssignment(w.lead) }

  /**
   `=` is left bare. A printed argument reads as an assignment exactly when it needs no quotes and starts with
   a name and `=`; such a command would set a variable instead of running.
   */
  lemma ReadsAsAssignment(argv: seq<string>, i: nat)
    requires i < |argv|
    ensures Words(Line(argv)).Some? && i < |Words(Line(argv)).value|
    ensures IsAssignment(Words(Line(argv)).value[i]) <==> Bare(argv[i]) && StartsAssignment(argv[i])
  {
    RoundTrip(argv);
  }

  /** Such a line: the command `A=b`. */
  lemma AssignmentPrinted()
    ensures Line(["A=b"]) == "A=b" && Words(Line(["A=b"])).Some? && |Words(Line(["A=b"])).value| == 1
    ensures IsAssignment(Words(Line(["A=b"])).value[0])
  {
    var argv := ["A=b"];
    assert argv[0][1] == '=' && IsName(argv[0][..1]);
    ReadsAsAssignment(argv, 0);
    RoundTrip(argv);
  }
}
