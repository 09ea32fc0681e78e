/** The text of the jq programs the query command builds: Rust's `{:?}`
    formatting of a string, and the reading of a jq call `name("literal")`
    with jq's string-literal escapes. */
module JqText {

  import opened Wrappers

  /** `char::escape_debug` for the characters it escapes with a backslash.
      The `\u{..}` form Rust uses for non-printable and grapheme-extended
      characters is not modelled: those characters stay raw here. */
  function DebugEscapeChar(c: char): string {
    if c == '"' then "\\\""
    else if c == '\\' then "\\\\"
    else if c == '\n' then "\\n"
    else if c == '\r' then "\\r"
    else if c == '\t' then "\\t"
    else if c == '\0' then "\\0"
    else [c]
  }

  function DebugEscape(s: string): string {
    if s == [] then "" else DebugEscapeChar(s[0]) + DebugEscape(s[1..])
  }

  /** `format!("{:?}", s)` for a string. */
  function DebugQuoted(s: string): string {
    "\"" + DebugEscape(s) + "\""
  }

  /** The character a jq escape sequence `\c` stands for; `\u` sequences and
      unknown escapes are not read. */
  function JqEscape(c: char): Option<char> {
    if c == '"' then Some('"')
    else if c == '\\' then Some('\\')
    else if c == '/' then Some('/')
    else if c == 'b' then Some('\U{8}')
    else if c == 'f' then Some('\U{c}')
    else if c == 'n' then Some('\n')
    else if c == 'r' then Some('\r')
    else if c == 't' then Some('\t')
    else None
  }

  /** Reads the body of a jq string literal up to its closing quote: the
      decoded string and the text after the quote. */
  function ReadBody(t: string): Option<(string, string)>
    decreases |t|
  {
    if t == [] then None
    else if t[0] == '"' then Some(("", t[1..]))
    else if t[0] == '\\' then
      if |t| < 2 then None
      else match (JqEscape(t[1]), ReadBody(t[2..]))
        case (Some(c), Some((d, rest))) => Some(([c] + d, rest))
        case _ => None
    else match ReadBody(t[1..])
      case Some((d, rest)) => Some(([t[0]] + d, rest))
      case None => None
  }

  /** Reads `"literal")`, the argument part of a call with one string argument. */
  function ParseArgument(t: string): Option<string> {
    if t == [] || t[0] != '"' then None
    else match ReadBody(t[1..])
      case Some((arg, rest)) => if rest == ")" then Some(arg) else None
      case None => None
  }

  /** Reads a program `name("literal")`: the function name and the string it is applied to. */
  function ParseCall(p: string): Option<(string, string)>
    decreases |p|
  {
    if p == [] then None
    else if p[0] == '(' then
      match ParseArgument(p[1..])
      case Some(arg) => Some(("", arg))
      case None => None
    else match ParseCall(p[1..])
      case Some((name, arg)) => Some(([p[0]] + name, arg))
      case None => None
  }

  /** `format!(r#"name("{}")"#, arg)`: the argument spliced in as it is. */
  function RawCall(name: string, arg: string): string {
    name + "(\"" + arg + "\")"
  }

  /** `format!(r#"name({:?})"#, arg)`: the argument as a Rust string literal. */
  function QuotedCall(name: string, arg: string): string {
    name + "(" + DebugQuoted(arg) + ")"
  }

  predicate QuoteFree(s: string) {
    '"' !in s && '\\' !in s
  }

  lemma {:induction false} ParseCallOf(name: string, t: string)
    requires '(' !in name
    ensures ParseCall(name + "(" + t) ==
      match ParseArgument(t) case Some(arg) => Some((name, arg)) case None => None
  {
    if name == [] {
      assert name + "(" + t == "(" + t;
      assert ("(" + t)[1..] == t;
    } else {
      assert (name + "(" + t)[0] == name[0];
      assert (name + "(" + t)[1..] == name[1..] + "(" + t;
      ParseCallOf(name[1..], t);
      assert [name[0]] + name[1..] == name;
    }
  }

  /** A body without quotes or backslashes reads back unchanged. */
  lemma {:induction false} ReadRaw(s: string, rest: string)
    requires QuoteFree(s)
    ensures ReadBody(s + "\"" + rest) == Some((s, rest))
  {
    if s == [] {
      assert s + "\"" + rest == "\"" + rest;
    } else {
      var t := s + "\"" + rest;
      assert t[0] == s[0] && t[1..] == s[1..] + "\"" + rest;
      ReadRaw(s[1..], rest);
      assert [s[0]] + s[1..] == s;
    }
  }

  /** A Rust-escaped body reads back as the original string, as long as it
      holds no NUL character (Rust writes it `\0`, which jq does not read). */
  lemma {:induction false} ReadEscaped(s: string, rest: string)
    requires '\0' !in s
    ensures ReadBody(DebugEscape(s) + "\"" + rest) == Some((s, rest))
  {
    if s == [] {
      assert DebugEscape(s) + "\"" + rest == "\"" + rest;
    } else {
      var c := s[0];
      var tail := DebugEscape(s[1..]) + "\"" + rest;
      assert DebugEscape(s) + "\"" + rest == DebugEscapeChar(c) + tail;
      ReadEscaped(s[1..], rest);
      var t := DebugEscapeChar(c) + tail;
      if c in "\"\\\n\r\t" {
        assert |DebugEscapeChar(c)| == 2 && t[0] == '\\' && t[2..] == tail;
        assert JqEscape(t[1]) == Some(c);
      } else {
        assert t[0] == c && t[1..] == tail;
      }
      assert [c] + s[1..] == s;
    }
  }

  /** A raw splice names the function and passes the argument unchanged when
      the argument is free of quotes and backslashes. */
  lemma RawCallReads(name: string, arg: string)
    requires '(' !in name && QuoteFree(arg)
    ensures ParseCall(RawCall(name, arg)) == Some((name, arg))
  {
    assert RawCall(name, arg) == name + "(" + ("\"" + arg + "\"" + ")");
    ParseCallOf(name, "\"" + arg + "\"" + ")");
    ReadRaw(arg, ")");
    assert ("\"" + arg + "\"" + ")")[1..] == arg + "\"" + ")";
  }

  /** A quoted splice passes any argument without NUL characters unchanged. */
  lemma QuotedCallReads(name: string, arg: string)
    requires '(' !in name && '\0' !in arg
    ensures ParseCall(QuotedCall(name, arg)) == Some((name, arg))
  {
    var t := "\"" + DebugEscape(arg) + "\"" + ")";
    assert QuotedCall(name, arg) == name + "(" + t;
    ParseCallOf(name, t);
    ReadEscaped(arg, ")");
    assert t[1..] == DebugEscape(arg) + "\"" + ")";
  }

  /** A raw splice of an argument that is a single quote no longer reads as a
      call with that argument: the quote closes the literal early. */
  lemma RawCallBreaksOnQuote(name: string)
    requires '(' !in name
    ensures ParseCall(RawCall(name, "\"")) == None
  {
    var t := "\"\"\")";
    assert RawCall(name, "\"") == name + "(" + t;
    ParseCallOf(name, t);
    assert ReadBody(t[1..]) == Some(("", "\")"));
  }
}
