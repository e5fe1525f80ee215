/**
 * The git credential helper: it reads `key=value` lines describing the
 * repository git wants credentials for and, only for an https repository
 * on a credentialed host, answers with the account and an access token.
 *
 * Standard input arrives as the list of its lines; the configured extra
 * domains, the account and the outcome of loading and refreshing the
 * stored credential are parameters.
 */
module GitHelper {
  import opened Wrappers
  import opened Text

  // ---------------------------------------------------------------------
  // the `(.+)=(.+)` line pattern
  // ---------------------------------------------------------------------

  /** The part of a line a `.` can match: everything before its first newline. */
  function BeforeNewline(line: string): (p: string)
    ensures StartsWith(line, p) && '\n' !in p
    ensures |p| < |line| ==> line[|p|] == '\n'
  {
    if line == [] || line[0] == '\n' then []
    else [line[0]] + BeforeNewline(line[1..])
  }

  /** Splitting at index `e` leaves a non-empty key before an `=` and a non-empty value after it. */
  predicate IsKeySplit(p: string, e: int)
  {
    1 <= e < |p| - 1 && p[e] == '='
  }

  /** The rightmost `=` at or before `e` that has a non-empty key before it. */
  function LastSplit(p: string, e: int): (r: Option<nat>)
    requires e < |p| - 1
    ensures r.Some? ==> IsKeySplit(p, r.value) && r.value <= e
    ensures r.Some? ==> forall k :: r.value < k <= e ==> !IsKeySplit(p, k)
    ensures r.None? ==> forall k :: k <= e ==> !IsKeySplit(p, k)
    decreases e
  {
    if e < 1 then None
    else if p[e] == '=' then Some(e)
    else LastSplit(p, e - 1)
  }

  /**
   * `re.match(r'(.+)=(.+)', line)`: the greedy first group takes the key up
   * to the last `=` that still leaves a value, and the second group takes
   * the rest of the line up to its newline.
   */
  function MatchKeyValue(line: string): (r: Option<(string, string)>)
    ensures r.Some? <==> exists e :: IsKeySplit(BeforeNewline(line), e)
    ensures r.Some? ==> exists e ::
      && IsKeySplit(BeforeNewline(line), e)
      && r.value == (BeforeNewline(line)[..e], BeforeNewline(line)[e + 1..])
      && forall k :: IsKeySplit(BeforeNewline(line), k) ==> k <= e
  {
    var p := BeforeNewline(line);
    if |p| < 3 then None
    else
      var e := LastSplit(p, |p| - 2);
      if e.None? then None
      else
        assert IsKeySplit(p, e.value);
        assert exists k :: IsKeySplit(BeforeNewline(line), k);
        assert forall k :: IsKeySplit(p, k) ==> k <= e.value;
        Some((p[..e.value], p[e.value + 1..]))
  }

  /**
   * Every match has a non-empty key and value, neither holding a newline,
   * and the line starts with them. The key is as long as it can be: an `=`
   * in the value can only be its last character, since any earlier one
   * would leave a value behind it and the greedy key would run up to it.
   */
  lemma MatchShape(line: string)
    requires MatchKeyValue(line).Some?
    ensures var (key, value) := MatchKeyValue(line).value;
      && key != "" && value != "" && '\n' !in key && '\n' !in value
      && StartsWith(line, key + "=" + value)
      && forall j :: 0 <= j < |value| - 1 ==> value[j] != '='
  {
    var p := BeforeNewline(line);
    var e :| && IsKeySplit(p, e) && MatchKeyValue(line).value == (p[..e], p[e + 1..])
             && forall k :: IsKeySplit(p, k) ==> k <= e;
    assert p == p[..e] + "=" + p[e + 1..];
    assert line[..|p|] == p;
    var value := p[e + 1..];
    forall j | 0 <= j < |value| - 1
      ensures value[j] != '='
    {
      var k := e + 1 + j;
      assert !IsKeySplit(p, k) && p[k] == value[j];
    }
  }

  /** A line `key=value` whose value holds no `=` or newline splits at that `=`. */
  lemma MatchSimpleLine(key: string, value: string)
    requires key != "" && value != "" && '\n' !in key && '\n' !in value && '=' !in value
    ensures MatchKeyValue(key + "=" + value + "\n") == Some((key, value))
  {
    var line := key + "=" + value + "\n";
    var p := key + "=" + value;
    assert BeforeNewline(line) == p by {
      BeforeNewlineOfLine(p);
    }
    var e := |key|;
    assert IsKeySplit(p, e);
    assert p[..e] == key && p[e + 1..] == value;
  }

  lemma {:induction false} BeforeNewlineOfLine(p: string)
    requires '\n' !in p
    ensures BeforeNewline(p + "\n") == p
  {
    if p != [] {
      assert (p + "\n")[1..] == p[1..] + "\n";
      BeforeNewlineOfLine(p[1..]);
      assert [p[0]] + p[1..] == p;
    }
  }

  // ---------------------------------------------------------------------
  // the session description
  // ---------------------------------------------------------------------

  /** The description read from the lines, one line at a time: matching lines set their key to the stripped value. */
  function InfoOf(lines: seq<string>): map<string, string>
  {
    if lines == [] then map[]
    else Record(InfoOf(lines[..|lines| - 1]), lines[|lines| - 1])
  }

  /** The description after one more line. */
  function Record(info: map<string, string>, line: string): map<string, string>
  {
    var m := MatchKeyValue(line);
    if m.None? then info else info[m.value.0 := Strip(m.value.1, Whitespace)]
  }

  lemma InfoOfPrefix(lines: seq<string>, i: int)
    requires 0 <= i < |lines|
    ensures InfoOf(lines[..i + 1]) == Record(InfoOf(lines[..i]), lines[i])
  {
    assert lines[..i + 1][..i] == lines[..i];
  }

  /** Reads the lines into the description, later lines overriding earlier ones. */
  method ParseInfo(lines: seq<string>) returns (info: map<string, string>)
    ensures info == InfoOf(lines)
  {
    info := map[];
    var i := 0;
    while i < |lines|
      invariant 0 <= i <= |lines|
      invariant info == InfoOf(lines[..i])
    {
      InfoOfPrefix(lines, i);
      var m := MatchKeyValue(lines[i]);
      if m.Some? {
        var (key, value) := m.value;
        info := info[key := Strip(value, Whitespace)];
      }
      i := i + 1;
    }
    assert lines[..|lines|] == lines;
  }

  /** A key's value is taken from the last line that sets it. */
  lemma {:induction false} LastLineWins(lines: seq<string>, i: int, key: string, value: string)
    requires 0 <= i < |lines| && MatchKeyValue(lines[i]) == Some((key, value))
    requires forall j :: i < j < |lines| ==> MatchKeyValue(lines[j]).None? || MatchKeyValue(lines[j]).value.0 != key
    ensures key in InfoOf(lines) && InfoOf(lines)[key] == Strip(value, Whitespace)
  {
    var init := lines[..|lines| - 1];
    var lastLine := lines[|lines| - 1];
    assert InfoOf(lines) == Record(InfoOf(init), lastLine);
    if i < |lines| - 1 {
      forall j | i < j < |init|
        ensures MatchKeyValue(init[j]).None? || MatchKeyValue(init[j]).value.0 != key
      {
        assert init[j] == lines[j];
      }
      assert init[i] == lines[i];
      LastLineWins(init, i, key, value);
      assert MatchKeyValue(lastLine).None? || MatchKeyValue(lastLine).value.0 != key;
    }
  }

  /** Every key comes from some matching line. */
  lemma {:induction false} KeysFromLines(lines: seq<string>, key: string)
    requires key in InfoOf(lines)
    ensures exists i :: 0 <= i < |lines| && MatchKeyValue(lines[i]).Some? && MatchKeyValue(lines[i]).value.0 == key
  {
    var init := lines[..|lines| - 1];
    var m := MatchKeyValue(lines[|lines| - 1]);
    assert InfoOf(lines) == Record(InfoOf(init), lines[|lines| - 1]);
    if m.Some? && m.value.0 == key {
    } else {
      KeysFromLines(init, key);
      var i :| 0 <= i < |init| && MatchKeyValue(init[i]).Some? && MatchKeyValue(init[i]).value.0 == key;
      assert lines[i] == init[i];
    }
  }

  // ---------------------------------------------------------------------
  // textwrap.dedent
  // ---------------------------------------------------------------------

  /** The characters a dedent margin is made of. */
  predicate IsIndentChar(ch: char)
  {
    ch == ' ' || ch == '\t'
  }

  /** A non-empty line of spaces and tabs only; dedent empties such lines first. */
  predicate WhitespaceOnly(line: string)
  {
    line != [] && forall i :: 0 <= i < |line| ==> IsIndentChar(line[i])
  }

  /** The leading spaces and tabs of a line. */
  function IndentOf(line: string): (indent: string)
    ensures StartsWith(line, indent)
    ensures forall i :: 0 <= i < |indent| ==> IsIndentChar(indent[i])
    ensures |indent| < |line| ==> !IsIndentChar(line[|indent|])
  {
    if line != [] && IsIndentChar(line[0]) then [line[0]] + IndentOf(line[1..]) else ""
  }

  /** A line with some character besides spaces and tabs: only such lines take part in the margin. */
  predicate HasText(line: string)
  {
    |IndentOf(line)| < |line|
  }

  /** The longest common prefix of two strings. */
  function CommonPrefix(a: string, b: string): (p: string)
    ensures StartsWith(a, p) && StartsWith(b, p)
    ensures |p| < |a| && |p| < |b| ==> a[|p|] != b[|p|]
    ensures StartsWith(b, a) ==> p == a
  {
    if a != [] && b != [] && a[0] == b[0] then [a[0]] + CommonPrefix(a[1..], b[1..]) else ""
  }

  /**
   * The margin dedent removes: the common prefix of the indents of the
   * lines with text, taken line by line from the first; None when no line
   * has text.
   */
  function Margin(lines: seq<string>): Option<string>
  {
    if lines == [] then None
    else
      var last := lines[|lines| - 1];
      var before := Margin(lines[..|lines| - 1]);
      if !HasText(last) then before
      else if before.None? then Some(IndentOf(last))
      else Some(CommonPrefix(before.value, IndentOf(last)))
  }

  /** The lines with every whitespace-only line emptied. */
  function Blanked(lines: seq<string>): (r: seq<string>)
    ensures |r| == |lines|
    ensures forall i :: 0 <= i < |lines| ==> r[i] == if WhitespaceOnly(lines[i]) then "" else lines[i]
  {
    seq(|lines|, i requires 0 <= i < |lines| => if WhitespaceOnly(lines[i]) then "" else lines[i])
  }

  /** The lines with the margin removed from each line that starts with it. */
  function WithoutMargin(lines: seq<string>, margin: string): (r: seq<string>)
    ensures |r| == |lines|
    ensures forall i :: 0 <= i < |lines| ==>
      r[i] == if StartsWith(lines[i], margin) then lines[i][|margin|..] else lines[i]
  {
    seq(|lines|, i requires 0 <= i < |lines| =>
      if StartsWith(lines[i], margin) then lines[i][|margin|..] else lines[i])
  }

  /**
   * Python's `textwrap.dedent`: whitespace-only lines are emptied, then the
   * whitespace common to the start of every line with text is removed from
   * each line. Lines are separated by `\n` alone.
   */
  function Dedent(text: string): string
  {
    var lines := Blanked(Split(text, '\n'));
    var margin := Margin(lines);
    if margin.Some? && margin.value != "" then Join(WithoutMargin(lines, margin.value), "\n")
    else Join(lines, "\n")
  }

  /** The indentation of the stderr template's lines in the source. */
  const LoginIndent := "          "
  const LoginHint := "Run 'gcloud auth login' to log in."

  /**
   * The stderr message for a credential that cannot be loaded: the error is
   * formatted into the indented three-line template, and the result is
   * dedented.
   */
  function LoadErrorText(error: string): string
  {
    Dedent(Join([LoginIndent + ("ERROR: " + error), LoginIndent + LoginHint, LoginIndent], "\n"))
  }

  lemma JoinThree(a: string, b: string, c: string, sep: string)
    ensures Join([a, b, c], sep) == a + sep + (b + sep + c)
  {
    assert [a, b, c][1..] == [b, c];
    assert [b, c][1..] == [c];
    assert Join([c], sep) == c;
    assert Join([b, c], sep) == b + sep + c;
  }

  /** A piece holding the separator joins like the two pieces on either side of it. */
  lemma JoinSplitPiece(u: string, v: string, rest: seq<string>, sep: string)
    requires |rest| >= 1
    ensures Join([u + sep + v] + rest, sep) == Join([u, v] + rest, sep)
  {
    assert ([u + sep + v] + rest)[1..] == rest;
    assert ([u, v] + rest)[1..] == [v] + rest;
    assert ([v] + rest)[1..] == rest;
  }

  lemma MarginSnoc(lines: seq<string>, last: string)
    ensures Margin(lines + [last]) ==
      if !HasText(last) then Margin(lines)
      else if Margin(lines).None? then Some(IndentOf(last))
      else Some(CommonPrefix(Margin(lines).value, IndentOf(last)))
  {
    assert (lines + [last])[..|lines|] == lines;
  }

  lemma NoNewlineInIndent(indent: string)
    requires forall i :: 0 <= i < |indent| ==> IsIndentChar(indent[i])
    ensures '\n' !in indent
  {
    forall i | 0 <= i < |indent| ensures indent[i] != '\n' { assert IsIndentChar(indent[i]); }
  }

  /** An indent followed by a character that is not an indent character is the line's whole indent. */
  lemma {:induction false} IndentBeforeText(indent: string, x: string)
    requires forall i :: 0 <= i < |indent| ==> IsIndentChar(indent[i])
    requires x != [] && !IsIndentChar(x[0])
    ensures IndentOf(indent + x) == indent
    ensures HasText(indent + x) && !WhitespaceOnly(indent + x)
  {
    if indent != [] {
      IndentBeforeText(indent[1..], x);
      assert (indent + x)[1..] == indent[1..] + x;
    }
    assert (indent + x)[|indent|] == x[0];
  }

  /**
   * Two lines that carry the same indent lose exactly that indent, and a
   * trailing line of that indent alone becomes empty.
   */
  lemma DedentUniform(indent: string, x: string, y: string)
    requires indent != [] && forall i :: 0 <= i < |indent| ==> IsIndentChar(indent[i])
    requires x != [] && !IsIndentChar(x[0]) && '\n' !in x
    requires y != [] && !IsIndentChar(y[0]) && '\n' !in y
    ensures Dedent(Join([indent + x, indent + y, indent], "\n")) == Join([x, y, ""], "\n")
  {
    IndentBeforeText(indent, x);
    IndentBeforeText(indent, y);
    NoNewlineInIndent(indent);
    SplitJoin([indent + x, indent + y, indent], '\n');
    var lines := Blanked([indent + x, indent + y, indent]);
    assert lines == [indent + x, indent + y, ""];
    MarginOfUniform(indent, x, y);
    assert (indent + x)[|indent|..] == x && (indent + y)[|indent|..] == y;
    assert WithoutMargin(lines, indent) == [x, y, ""];
  }

  lemma MarginOfUniform(indent: string, x: string, y: string)
    requires forall i :: 0 <= i < |indent| ==> IsIndentChar(indent[i])
    requires x != [] && !IsIndentChar(x[0])
    requires y != [] && !IsIndentChar(y[0])
    ensures Margin([indent + x, indent + y, ""]) == Some(indent)
  {
    IndentBeforeText(indent, x);
    IndentBeforeText(indent, y);
    MarginSnoc([], indent + x);
    assert [] + [indent + x] == [indent + x];
    MarginSnoc([indent + x], indent + y);
    assert [indent + x] + [indent + y] == [indent + x, indent + y];
    MarginSnoc([indent + x, indent + y], "");
    assert [indent + x, indent + y] + [""] == [indent + x, indent + y, ""];
  }

  /**
   * A line with no indent among indented ones leaves an empty margin, so
   * nothing is dedented; only the trailing whitespace-only line is emptied.
   */
  lemma DedentUnindentedLine(indent: string, x: string, y: string, z: string)
    requires indent != [] && forall i :: 0 <= i < |indent| ==> IsIndentChar(indent[i])
    requires x != [] && !IsIndentChar(x[0]) && '\n' !in x
    requires y != [] && !IsIndentChar(y[0]) && '\n' !in y
    requires z != [] && !IsIndentChar(z[0]) && '\n' !in z
    ensures Dedent(Join([indent + x, y, indent + z, indent], "\n")) == Join([indent + x, y, indent + z, ""], "\n")
  {
    IndentBeforeText(indent, x);
    IndentBeforeText([], y);
    assert [] + y == y;
    IndentBeforeText(indent, z);
    NoNewlineInIndent(indent);
    SplitJoin([indent + x, y, indent + z, indent], '\n');
    var lines := Blanked([indent + x, y, indent + z, indent]);
    assert lines == [indent + x, y, indent + z, ""];
    MarginOfUnindented(indent, x, y, z);
  }

  lemma MarginOfUnindented(indent: string, x: string, y: string, z: string)
    requires forall i :: 0 <= i < |indent| ==> IsIndentChar(indent[i])
    requires x != [] && !IsIndentChar(x[0])
    requires y != [] && !IsIndentChar(y[0])
    requires z != [] && !IsIndentChar(z[0])
    ensures Margin([indent + x, y, indent + z, ""]) == Some("")
  {
    IndentBeforeText(indent, x);
    IndentBeforeText([], y);
    assert [] + y == y;
    IndentBeforeText(indent, z);
    MarginSnoc([], indent + x);
    assert [] + [indent + x] == [indent + x];
    MarginSnoc([indent + x], y);
    assert [indent + x] + [y] == [indent + x, y];
    MarginSnoc([indent + x, y], indent + z);
    assert [indent + x, y] + [indent + z] == [indent + x, y, indent + z];
    MarginSnoc([indent + x, y, indent + z], "");
    assert [indent + x, y, indent + z] + [""] == [indent + x, y, indent + z, ""];
  }

  /** A one-line error: the template's indent is removed, leaving the error line and the login hint. */
  lemma LoadErrorOneLine(error: string)
    requires '\n' !in error
    ensures LoadErrorText(error) == "ERROR: " + error + "\n" + (LoginHint + "\n")
  {
    var x := "ERROR: " + error;
    assert x[0] == 'E' && LoginHint[0] == 'R';
    assert forall i :: 0 <= i < |LoginIndent| ==> LoginIndent[i] == ' ';
    DedentUniform(LoginIndent, x, LoginHint);
    JoinThree(x, LoginHint, "", "\n");
  }

  /**
   * An error whose second line starts without indentation: the margin is
   * empty, so the message keeps the template's indentation.
   */
  lemma LoadErrorMultiLine(first: string, second: string)
    requires '\n' !in first && '\n' !in second
    requires second != [] && !IsIndentChar(second[0])
    ensures LoadErrorText(first + "\n" + second)
         == Join([LoginIndent + ("ERROR: " + first), second, LoginIndent + LoginHint, ""], "\n")
  {
    var x := "ERROR: " + first;
    assert x[0] == 'E' && LoginHint[0] == 'R';
    assert forall i :: 0 <= i < |LoginIndent| ==> LoginIndent[i] == ' ';
    assert LoginIndent + ("ERROR: " + (first + "\n" + second)) == LoginIndent + x + "\n" + second;
    JoinSplitPiece(LoginIndent + x, second, [LoginIndent + LoginHint, LoginIndent], "\n");
    DedentUnindentedLine(LoginIndent, x, second, LoginHint);
  }

  // ---------------------------------------------------------------------
  // gating and the answer
  // ---------------------------------------------------------------------

  /** The two built-in hosts plus every comma-separated entry of the configured extra domains, untrimmed. */
  function CredentialedDomains(extra: Option<string>): (domains: seq<string>)
    ensures forall d :: d in domains <==>
      d == "code.google.com" || d == "source.developers.google.com" || (Truthy(extra) && d in Split(extra.value, ','))
  {
    ["code.google.com", "source.developers.google.com"] + (if Truthy(extra) then Split(extra.value, ',') else [])
  }

  /** How the stored credential fared: loading failed, refreshing failed, or an access token came back. */
  datatype Credential = LoadFailed(error: string) | RefreshFailed(error: string) | AccessToken(token: string)

  /** What the helper wrote to its two streams. */
  datatype Session = Session(stdout: string, stderr: string)

  /** `str()` of an optional account. */
  function AccountText(account: Option<string>): string
  {
    if account.Some? then account.value else "None"
  }

  /** The answer: the account and the refreshed access token, one `key=value` line each. */
  function Answer(account: Option<string>, token: string): string
  {
    "username=" + AccountText(account) + "\npassword=" + token + "\n"
  }

  /** The https-and-credentialed-host gate, on the description read from the lines. */
  predicate Credentialed(info: map<string, string>, extra: Option<string>)
  {
    && "protocol" in info && info["protocol"] == "https"
    && "host" in info && info["host"] in CredentialedDomains(extra)
  }

  /**
   * The helper. Only the `get` method answers, and only for an https
   * repository on a credentialed host; a credential that cannot be loaded
   * is reported on stderr, and one that cannot be refreshed is a tool
   * error (Err).
   */
  method Run(method_: string, lines: seq<string>, extra: Option<string>, account: Option<string>,
             credential: Credential) returns (r: Result<Session, string>)
    ensures method_ != "get" ==> r == Ok(Session("", ""))
    ensures method_ == "get" && !Credentialed(InfoOf(lines), extra) ==> r == Ok(Session("", ""))
    ensures r.Err? <==> method_ == "get" && Credentialed(InfoOf(lines), extra) && credential.RefreshFailed?
    ensures r.Ok? && r.value.stdout != "" ==>
      method_ == "get" && Credentialed(InfoOf(lines), extra) && credential.AccessToken?
    ensures method_ == "get" && Credentialed(InfoOf(lines), extra) && credential.AccessToken? ==>
      r == Ok(Session(Answer(account, credential.token), ""))
    ensures method_ == "get" && Credentialed(InfoOf(lines), extra) && credential.LoadFailed? ==>
      r == Ok(Session("", LoadErrorText(credential.error)))
  {
    if method_ != "get" {
      return Ok(Session("", ""));
    }
    var info := ParseInfo(lines);
    if "protocol" !in info || info["protocol"] != "https" {
      return Ok(Session("", ""));
    }
    var domains := CredentialedDomains(extra);
    if "host" !in info || info["host"] !in domains {
      return Ok(Session("", ""));
    }
    match credential
    case LoadFailed(error) =>
      return Ok(Session("", LoadErrorText(error)));
    case RefreshFailed(error) =>
      return Err(error);
    case AccessToken(token) =>
      return Ok(Session(Answer(account, token), ""));
  }

  /** The answer has exactly two lines, username first, and neither holds anything past its value. */
  lemma AnswerLines(account: Option<string>, token: string)
    requires '\n' !in AccountText(account) && '\n' !in token && '\r' !in AccountText(account) && '\r' !in token
    ensures SplitLines(Answer(account, token)) == ["username=" + AccountText(account), "password=" + token]
  {
    var first := "username=" + AccountText(account);
    var second := "password=" + token;
    assert Answer(account, token) == Join([first, second], "\n") + "\n";
    AnswerSplit(first, second);
  }

  lemma AnswerSplit(first: string, second: string)
    requires second != ""
    requires forall i :: 0 <= i < |first| ==> !IsLineBreak(first[i])
    requires forall i :: 0 <= i < |second| ==> !IsLineBreak(second[i])
    ensures SplitLines(Join([first, second], "\n") + "\n") == [first, second]
  {
    assert Join([first, second], "\n") + "\n" == first + "\n" + (second + "\n" + "");
    SplitLinesCons(second, "");
    SplitLinesCons(first, second + "\n" + "");
  }
}
